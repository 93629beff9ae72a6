// A subscriber of one topic next to any number of publishers: it waits for the topic's
// directory, watches it, scans it, and then lives on the kernel's events, starting over
// whenever something disappears.
module Discovery {
  import opened Wrappers
  import opened PublisherWorld
  import opened Bytes
  import Record = PublisherInfo

  // What the subscriber is attached to: the name it decoded, and what that process's
  // descriptor referred to at the time.
  datatype Attachment = Attachment(name: Handle, target: Object)

  // Where the subscriber is.  During the scan of the directory `dir`, the entries in
  // `must` are still to be read, because they have been there since it was opened, and
  // those in `may` can be.  In the loop, `seen` says whether it has looked at the record in
  // this pass.
  datatype Mode =
    | Waiting
    | HasDirectory
    | Watching
    | Scanning(dir: nat, must: set<Handle>, may: set<Handle>)
    | Looping(seen: bool)
    | Crashed

  // `watch` is the directory the kernel watches for the subscriber, if any; the events
  // it has read and not looked at are in `batch`, the others in `queue`.
  datatype Subscriber = Subscriber(
    topic: string,
    mode: Mode,
    watch: Option<nat>,
    queue: seq<Event>,
    batch: seq<Event>,
    attached: Option<Attachment>)
  {
    predicate Pends(e: Event) {
      e in batch || e in queue
    }

    // A subscriber that has a watch and no reason to start over.
    predicate Watchful() {
      watch.Some? && !Pends(DeleteSelf)
    }
  }

  datatype System = System(world: World, sub: Subscriber)

  // A publisher's step, or a step of the subscriber.  An attempt to attach to a
  // descriptor that is no buffer of a publisher may fail.
  datatype SystemStep =
    | Outside(step: Step)
    | Stat
    | AddWatch
    | OpenDirectory
    | ReadEntry(name: Handle, lucky: bool)
    | EndScan
    | LookAtRecord(lucky: bool)
    | ReadEvents(count: nat)
    | NextEvent(lucky: bool)

  // ---------- The kernel's side of a watch ----------

  // An event equal to the last one in the queue is dropped.
  function Enqueue(queue: seq<Event>, e: Event): seq<Event> {
    if queue != [] && queue[|queue| - 1] == e then queue else queue + [e]
  }

  // A watch ends with its directory.
  function Delivered(queue: seq<Event>, e: Event): seq<Event> {
    if e == DeleteSelf then Enqueue(queue, e) + [Ignored] else Enqueue(queue, e)
  }

  function Told(topic: string, n: Notice): Option<Event> {
    if n.Notice? && n.topic == topic then Some(n.event) else None
  }

  function Incarnation(w: World, topic: string): Option<nat> {
    if topic in w.dirs then Some(w.dirs[topic]) else None
  }

  predicate Present(w: World, topic: string, n: Handle) {
    Path(topic, n) in w.files
  }

  function Names(w: World, topic: string): (s: set<Handle>)
    ensures forall n :: n in s <==> Present(w, topic, n)
  {
    set path | path in w.files && path.topic == topic :: path.name
  }

  // A scan of an open directory keeps pace with the directory.
  function Rescanned(w: World, w': World, topic: string, mode: Mode): Mode {
    if mode.Scanning? then
      Scanning(mode.dir, mode.must * Names(w', topic),
        if Incarnation(w, topic) == Some(mode.dir) then mode.may + (Names(w', topic) - Names(w, topic)) else mode.may)
    else mode
  }

  function Observed(sub: Subscriber, w: World, w': World, told: Option<Event>): Subscriber {
    sub.(
      mode := Rescanned(w, w', sub.topic, sub.mode),
      queue := if told.Some? && sub.watch.Some? && sub.watch == Incarnation(w, sub.topic)
               then Delivered(sub.queue, told.value) else sub.queue)
  }

  // ---------- The subscriber's steps ----------

  // Attaching opens the descriptor a name tells of; it fails when nothing is open there
  // or what is open there has no size, and it can fail on anything foreign.
  function Attach(fds: map<Handle, Object>, n: Handle, lucky: bool): Option<Attachment> {
    if n !in fds || fds[n].EventCounter? || (fds[n].Foreign? && !lucky) then None
    else Some(Attachment(n, fds[n]))
  }

  // A failed attempt ends the subscriber.
  function TryAttach(sub: Subscriber, fds: map<Handle, Object>, n: Handle, lucky: bool): Subscriber {
    if sub.attached.Some? then sub
    else
      var a := Attach(fds, n, lucky);
      if a.None? then sub.(mode := Crashed) else sub.(attached := a)
  }

  // The scalars and the vectors the loop looks at, which it does not ask for whether they
  // are there.
  predicate Legible(data: seq<byte>) {
    && Record.ScalarFits(data, Record.Pid) && Record.ScalarFits(data, Record.LastIndex)
    && Shown(data, Record.IndexCyclePool) && Shown(data, Record.MsgIdPool) && Shown(data, Record.DmaBuffFd)
  }

  predicate Shown(data: seq<byte>, v: Record.VectorField) {
    Record.VectorFits(data, v) && Record.HasVector(data, v)
  }

  // Whether looking at what the subscriber is attached to goes well.  What a queue buffer or
  // anything foreign contains is not known.
  predicate Reads(memory: map<Generation, seq<byte>>, a: Attachment, lucky: bool) {
    if a.target.InfoBuffer? then Legible(BufferOf(memory, a.target.gen)) else lucky
  }

  // Closing the inotify descriptor drops its queue and its watch.
  function Restarted(sub: Subscriber): Subscriber {
    Subscriber(sub.topic, Waiting, None, [], [], None)
  }

  function React(sub: Subscriber, fds: map<Handle, Object>, e: Event, lucky: bool): Subscriber {
    match e
    case DeleteSelf => Restarted(sub)
    case Delete(_) => Restarted(sub)
    case CloseWrite(n) => TryAttach(sub, fds, n, lucky)
    case Ignored => sub
  }

  predicate Possible(s: System, step: SystemStep) {
    var sub := s.sub;
    match step
    case Outside(step) => Enabled(s.world, step)
    case Stat => sub.mode.Waiting?
    case AddWatch => sub.mode.HasDirectory?
    case OpenDirectory => sub.mode.Watching?
    case ReadEntry(n, _) => sub.mode.Scanning? && n in sub.mode.may
    case EndScan => sub.mode.Scanning? && sub.mode.must == {}
    case LookAtRecord(_) => sub.mode.Looping? && !sub.mode.seen && sub.batch == []
    case ReadEvents(count) =>
      && sub.mode.Looping? && sub.mode.seen && sub.batch == []
      && count <= |sub.queue| && (count == 0 ==> sub.queue == [])
    case NextEvent(_) => sub.mode.Looping? && sub.batch != []
  }

  function Moved(w: World, sub: Subscriber, step: SystemStep): Subscriber
    requires !step.Outside? && Possible(System(w, sub), step)
  {
    match step
    case Stat => if sub.topic in w.dirs then sub.(mode := HasDirectory) else sub
    // The answer is not looked at.
    case AddWatch => sub.(mode := Watching, watch := Incarnation(w, sub.topic))
    // Reading a directory that could not be opened ends the subscriber.
    case OpenDirectory =>
      if sub.topic !in w.dirs then sub.(mode := Crashed)
      else sub.(mode := Scanning(w.dirs[sub.topic], Names(w, sub.topic), Names(w, sub.topic)))
    case ReadEntry(n, lucky) =>
      TryAttach(sub.(mode := Scanning(sub.mode.dir, sub.mode.must - {n}, sub.mode.may)), w.fds, n, lucky)
    case EndScan => sub.(mode := Looping(false))
    // Every pass of the loop first looks at the record, if there is one.
    case LookAtRecord(lucky) =>
      if sub.attached.Some? && !Reads(w.memory, sub.attached.value, lucky) then sub.(mode := Crashed)
      else sub.(mode := Looping(true))
    case ReadEvents(count) =>
      sub.(mode := Looping(false), batch := sub.queue[..count], queue := sub.queue[count..])
    case NextEvent(lucky) => React(sub.(batch := sub.batch[1..]), w.fds, sub.batch[0], lucky)
  }

  function Succ(s: System, step: SystemStep): System
    requires Possible(s, step)
  {
    if step.Outside? then
      var w' := Next(s.world, step.step);
      System(w', Observed(s.sub, s.world, w', Told(s.sub.topic, NoticeOf(s.world, step.step))))
    else System(s.world, Moved(s.world, s.sub, step))
  }

  predicate Begins(s: System) {
    Initial(s.world) && s.sub == Subscriber(s.sub.topic, Waiting, None, [], [], None)
  }

  predicate Proceeds(s: System, steps: seq<SystemStep>)
    decreases |steps|
  {
    steps == [] || (Possible(s, steps[0]) && Proceeds(Succ(s, steps[0]), steps[1..]))
  }

  function Finally(s: System, steps: seq<SystemStep>): System
    requires Proceeds(s, steps)
    decreases |steps|
  {
    if steps == [] then s else Finally(Succ(s, steps[0]), steps[1..])
  }

  // ---------- What a publisher's step does to the directory ----------

  predicate Closed(w: World, topic: string, n: Handle) {
    Present(w, topic, n) && w.files[Path(topic, n)].closed
  }

  function GenerationOf(w: World, topic: string, n: Handle): Generation
    requires Present(w, topic, n)
  {
    w.files[Path(topic, n)].gen
  }

  // The watchers of a topic are told of every file that is closed or removed, and of
  // the end of the directory.
  ghost predicate Faithful(w: World, w': World, topic: string, told: Option<Event>) {
    && (forall n :: Present(w, topic, n) && !Present(w', topic, n) ==> told == Some(Delete(n)))
    && (forall n :: Closed(w', topic, n) && !Closed(w, topic, n) ==> told == Some(CloseWrite(n)))
    && (forall n :: Present(w, topic, n) && Present(w', topic, n) ==>
      GenerationOf(w, topic, n) == GenerationOf(w', topic, n))
    && (told.Some? ==> !told.value.Ignored? && (told.value.CloseWrite? ==> Present(w', topic, told.value.name)))
    && (Incarnation(w, topic).Some? && Incarnation(w', topic) != Incarnation(w, topic) ==> told == Some(DeleteSelf))
    && (Incarnation(w, topic).None? && Incarnation(w', topic).Some? ==> Incarnation(w', topic).value >= w.nextDir)
    && (told == Some(DeleteSelf) ==> Incarnation(w, topic).Some? && Incarnation(w', topic).None?)
    && w.nextDir <= w'.nextDir
  }

  lemma StepIsFaithful(w: World, s: Step, topic: string)
    requires Inv(w) && Enabled(w, s)
    ensures Faithful(w, Next(w, s), topic, Told(topic, NoticeOf(w, s)))
  {
    hide Packed, FdsAfter, BufferAfter, PublisherInv, Inv, Advanced;
    if s.Act? && (s.action.CreateFile? || s.action.CloseFile? || s.action.RemoveFile?) {
      FileAct(w, s.gen, s.action);
    }
  }

  // The file is not there before it is created, and is the publisher's own afterwards.
  lemma FileAct(w: World, gen: Generation, a: Action)
    requires Inv(w) && Enabled(w, Act(gen, a)) && (a.CreateFile? || a.CloseFile? || a.RemoveFile?)
    ensures a.CreateFile? ==> w.pubs[gen].FilePath() !in w.files
    ensures a.CloseFile? && w.pubs[gen].advertised ==> w.pubs[gen].FilePath() in w.files
  {
    hide Packed, FdsAfter, BufferAfter, PartsHeld, RecordHeld, FilesOwned;
    assert PublisherInv(w, gen);
    if w.pubs[gen].FilePath() in w.files {
      FileIsOwn(w, gen);
    }
  }

  // ---------- What every step keeps ----------

  // The watch is on the directory that is there.
  ghost predicate Current(w: World, sub: Subscriber) {
    sub.watch == Incarnation(w, sub.topic)
  }

  // A name is announced while its file is there, and what goes away is announced too.
  ghost predicate Announced(w: World, sub: Subscriber) {
    forall n :: sub.Pends(CloseWrite(n)) ==> Present(w, sub.topic, n) || sub.Pends(Delete(n))
  }

  ghost predicate Scannable(w: World, sub: Subscriber) {
    sub.mode.Scanning? ==>
      && (forall n :: n in sub.mode.may ==> Present(w, sub.topic, n) || sub.Pends(Delete(n)))
      && (forall n :: n in sub.mode.must ==> Present(w, sub.topic, n) && n in sub.mode.may)
  }

  predicate UpToDate(w: World, topic: string, a: Attachment) {
    Present(w, topic, a.name) && a.target == InfoBuffer(GenerationOf(w, topic, a.name))
  }

  // No silent staleness.
  ghost predicate Attached(w: World, sub: Subscriber) {
    sub.attached.Some? ==> UpToDate(w, sub.topic, sub.attached.value) || sub.Pends(Delete(sub.attached.value.name))
  }

  // No lost publisher.
  ghost predicate Covered(w: World, sub: Subscriber) {
    (sub.mode.Scanning? || sub.mode.Looping?) && sub.attached.None? ==>
      forall n :: Closed(w, sub.topic, n) ==> sub.Pends(CloseWrite(n)) || (sub.mode.Scanning? && n in sub.mode.must)
  }

  ghost predicate Sound(w: World, sub: Subscriber) {
    Current(w, sub) && Announced(w, sub) && Scannable(w, sub) && Attached(w, sub) && Covered(w, sub)
  }

  ghost predicate SubInv(w: World, sub: Subscriber) {
    && (sub.watch.Some? ==> sub.watch.value < w.nextDir)
    && (sub.watch.None? ==> sub.queue == [] && sub.batch == [])
    && (sub.batch != [] ==> sub.mode.Looping? || sub.mode.Crashed?)
    && (sub.mode.Waiting? || sub.mode.HasDirectory? || sub.mode.Watching? ==> sub.attached.None?)
    && (sub.mode.Waiting? || sub.mode.HasDirectory? ==> sub.watch.None?)
    && (sub.Watchful() && !sub.mode.Crashed? ==> Sound(w, sub))
  }

  lemma ObservedPends(sub: Subscriber, w: World, w': World, told: Option<Event>, e: Event)
    requires told.Some? ==> !told.value.Ignored?
    ensures
      var delivered := told.Some? && sub.watch.Some? && sub.watch == Incarnation(w, sub.topic);
      e != Ignored ==> (Observed(sub, w, w', told).Pends(e) <==> sub.Pends(e) || (delivered && told.value == e))
  {
  }

  // A publisher's step goes by without breaking anything.
  lemma OutsideKeeps(w: World, w': World, sub: Subscriber, told: Option<Event>)
    requires SubInv(w, sub) && Faithful(w, w', sub.topic, told)
    ensures SubInv(w', Observed(sub, w, w', told))
  {
    hide Delivered;
    var sub' := Observed(sub, w, w', told);
    forall e: Event | e != Ignored {
      ObservedPends(sub, w, w', told, e);
    }
    if sub'.Watchful() && !sub'.mode.Crashed? {
      assert sub.Watchful();
      assert Sound(w, sub);
      SoundOutside(w, w', sub, told);
    }
  }

  lemma SoundOutside(w: World, w': World, sub: Subscriber, told: Option<Event>)
    requires Sound(w, sub) && sub.watch.Some? && Faithful(w, w', sub.topic, told) && told != Some(DeleteSelf)
    ensures Sound(w', Observed(sub, w, w', told))
  {
    hide Delivered;
    var sub' := Observed(sub, w, w', told);
    forall e: Event | e != Ignored {
      ObservedPends(sub, w, w', told, e);
    }
  }

  // So does a step of the subscriber.
  lemma MovedKeeps(w: World, sub: Subscriber, step: SystemStep)
    requires Inv(w) && SubInv(w, sub) && !step.Outside? && Possible(System(w, sub), step)
    ensures SubInv(w, Moved(w, sub, step))
  {
    hide Inv, Reads;
    match step {
      case ReadEntry(n, lucky) => EntryRead(w, sub, n, lucky);
      case NextEvent(lucky) => EventTaken(w, sub, lucky);
      case ReadEvents(count) => EventsRead(w, sub, count);
      case LookAtRecord(lucky) => RecordSeen(w, sub, lucky);
      case AddWatch => WatchNumber(w, sub.topic);
      case _ =>
    }
  }

  lemma WatchNumber(w: World, topic: string)
    requires Inv(w)
    ensures Incarnation(w, topic).Some? ==> Incarnation(w, topic).value < w.nextDir
  {
  }

  lemma EventsRead(w: World, sub: Subscriber, count: nat)
    requires SubInv(w, sub) && sub.mode.Looping? && sub.batch == [] && count <= |sub.queue|
    ensures SubInv(w, sub.(mode := Looping(false), batch := sub.queue[..count], queue := sub.queue[count..]))
  {
    var sub' := sub.(mode := Looping(false), batch := sub.queue[..count], queue := sub.queue[count..]);
    assert sub.queue == sub'.batch + sub'.queue;
    assert forall e :: e in sub.queue <==> e in sub'.batch || e in sub'.queue;
    assert forall e :: sub'.Pends(e) <==> sub.Pends(e);
  }

  lemma RecordSeen(w: World, sub: Subscriber, lucky: bool)
    requires SubInv(w, sub) && sub.mode.Looping? && !sub.mode.seen && sub.batch == []
    ensures SubInv(w, Moved(w, sub, LookAtRecord(lucky)))
  {
    hide Reads;
  }

  // A file that is there leads to the info buffer of the publisher that made it.
  lemma AttachPresent(w: World, topic: string, n: Handle, lucky: bool)
    requires Inv(w) && Present(w, topic, n)
    ensures Attach(w.fds, n, lucky) == Some(Attachment(n, InfoBuffer(GenerationOf(w, topic, n))))
  {
    hide Packed, RecordHeld, FileHeld;
    assert PublisherInv(w, GenerationOf(w, topic, n));
  }

  lemma EntryRead(w: World, sub: Subscriber, n: Handle, lucky: bool)
    requires Inv(w) && SubInv(w, sub) && sub.mode.Scanning? && n in sub.mode.may
    ensures SubInv(w, Moved(w, sub, ReadEntry(n, lucky)))
  {
    hide Inv, Attach;
    if Present(w, sub.topic, n) {
      AttachPresent(w, sub.topic, n, lucky);
    }
    AttachName(w.fds, n, lucky);
  }

  lemma AttachName(fds: map<Handle, Object>, n: Handle, lucky: bool)
    ensures Attach(fds, n, lucky).Some? ==> Attach(fds, n, lucky).value.name == n
  {
  }

  lemma EventTaken(w: World, sub: Subscriber, lucky: bool)
    requires Inv(w) && SubInv(w, sub) && sub.mode.Looping? && sub.batch != []
    ensures SubInv(w, Moved(w, sub, NextEvent(lucky)))
  {
    hide Inv, Attach;
    var e, rest := sub.batch[0], sub.(batch := sub.batch[1..]);
    RestPends(sub);
    if e.CloseWrite? {
      AttachName(w.fds, e.name, lucky);
      if Present(w, sub.topic, e.name) {
        AttachPresent(w, sub.topic, e.name, lucky);
      }
    }
  }

  lemma RestPends(sub: Subscriber)
    requires sub.batch != []
    ensures forall e :: sub.Pends(e) <==> e == sub.batch[0] || sub.(batch := sub.batch[1..]).Pends(e)
  {
    assert sub.batch == [sub.batch[0]] + sub.batch[1..];
  }

  ghost predicate SystemInv(s: System) {
    Inv(s.world) && SubInv(s.world, s.sub)
  }

  lemma SuccInv(s: System, step: SystemStep)
    requires SystemInv(s) && Possible(s, step)
    ensures SystemInv(Succ(s, step))
  {
    hide Inv, SubInv, Next, Enabled, NoticeOf, Moved, Observed, Faithful;
    if step.Outside? {
      StepInv(s.world, step.step);
      StepIsFaithful(s.world, step.step, s.sub.topic);
      OutsideKeeps(s.world, Next(s.world, step.step), s.sub, Told(s.sub.topic, NoticeOf(s.world, step.step)));
    } else {
      MovedKeeps(s.world, s.sub, step);
    }
  }

  lemma {:induction false} SystemRunInv(s: System, steps: seq<SystemStep>)
    requires SystemInv(s) && Proceeds(s, steps)
    ensures SystemInv(Finally(s, steps))
    decreases |steps|
  {
    hide SystemInv, Possible, Succ;
    if steps != [] {
      SuccInv(s, steps[0]);
      SystemRunInv(Succ(s, steps[0]), steps[1..]);
    }
  }
}
