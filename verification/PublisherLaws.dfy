// What holds in every reachable state of any number of publishers: an advertised
// publisher is ready, file names never collide, and nobody removes or closes what
// belongs to another.
module PublisherLaws {
  import opened Bytes
  import opened PublisherWorld
  import InfoFileName
  import Laws = PublisherInfoLaws
  import Record = PublisherInfo

  // Every descriptor a record names is open and is what the record says it is.
  ghost predicate Usable(rec: Record.PublisherInfoT, g: Generation, fds: map<Handle, Object>) {
    && |rec.dmaBuffFd| == |rec.indexCyclePool| == |rec.timestampPool| == |rec.msgIdPool| == rec.queueSize
    && rec.pid < 0x8000_0000 && rec.eventFd >= 0 && Open(fds, rec.pid, rec.eventFd, EventCounter(g))
    && (forall k | 0 <= k < |rec.dmaBuffFd| ::
          rec.dmaBuffFd[k] >= 0 && Open(fds, rec.pid, rec.dmaBuffFd[k], QueueBuffer(g, k)))
  }

  // Whoever decodes the name of an info file and opens that process's descriptor finds
  // the info buffer of the publisher that made the file, holding a complete record, and
  // everything the record names is open.
  lemma AdvertisedIsReady(w0: World, steps: seq<Step>, path: Path)
    requires Initial(w0) && Runs(w0, steps) && path in After(w0, steps).files
    ensures
      var w := After(w0, steps);
      var g := w.files[path].gen;
      && InfoFileName.Decoded(InfoFileName.InfoName(path.name.pid, path.name.fd)).Some?
      && InfoFileName.Decoded(InfoFileName.InfoName(path.name.pid, path.name.fd)).value == (path.name.pid, path.name.fd)
      && Open(w.fds, path.name.pid, path.name.fd, InfoBuffer(g))
      && Record.Readable(BufferOf(w.memory, g))
      && Record.UnPack(BufferOf(w.memory, g)).pid == path.name.pid
      && Usable(Record.UnPack(BufferOf(w.memory, g)), g, w.fds)
  {
    hide Record.Readable, Record.UnPack, InfoFileName.Decoded, InfoFileName.InfoName;
    InitialInv(w0);
    RunInv(w0, steps);
    InfoFileName.RoundTrip(path.name.pid, path.name.fd);
    ReadyUnderInv(After(w0, steps), path);
  }

  lemma ReadyUnderInv(w: World, path: Path)
    requires Inv(w) && path in w.files
    ensures
      var g := w.files[path].gen;
      && Open(w.fds, path.name.pid, path.name.fd, InfoBuffer(g))
      && Record.Readable(BufferOf(w.memory, g))
      && g in w.pubs && Record.UnPack(BufferOf(w.memory, g)) == InfoOf(w.pubs[g])
      && InfoOf(w.pubs[g]).pid == path.name.pid
      && Usable(InfoOf(w.pubs[g]), g, w.fds)
  {
    hide Record.Readable, Record.UnPack, Record.Pack, FileHeld;
    var g := w.files[path].gen;
    assert PublisherInv(w, g);
    Laws.UnPackOfPack(BufferOf(w.memory, g), InfoOf(w.pubs[g]));
  }

  // Field by field, what an advertised record says.
  lemma RecordSays(w0: World, steps: seq<Step>, path: Path)
    requires Initial(w0) && Runs(w0, steps) && path in After(w0, steps).files
    ensures
      var w := After(w0, steps);
      var g := w.files[path].gen;
      g in w.pubs && Record.Readable(BufferOf(w.memory, g)) && Says(Record.UnPack(BufferOf(w.memory, g)), w.pubs[g])
  {
    hide *;
    InitialInv(w0);
    RunInv(w0, steps);
    var w := After(w0, steps);
    ReadyUnderInv(w, path);
    InfoSays(w.pubs[w.files[path].gen]);
  }

  // The sizes, the process and the descriptors; no index yet, an index pool of -1, and pools
  // of zero time stamps and message ids, all as long as the queue.
  ghost predicate Says(rec: Record.PublisherInfoT, p: Publisher) {
    && rec.queueSize == p.queueSize && rec.messageSize == p.messageSize && rec.pid == p.pid
    && rec.eventFd == p.eventFd && rec.dmaBuffFd == p.queueFds && rec.lastIndex == -1
    && |rec.indexCyclePool| == p.queueSize && (forall i | 0 <= i < p.queueSize :: rec.indexCyclePool[i] == -1)
    && |rec.timestampPool| == p.queueSize
    && (forall i | 0 <= i < p.queueSize :: rec.timestampPool[i].sec == 0 && rec.timestampPool[i].nsec == 0)
    && |rec.msgIdPool| == p.queueSize && (forall i | 0 <= i < p.queueSize :: rec.msgIdPool[i] == 0)
  }

  lemma InfoSays(p: Publisher)
    ensures Says(InfoOf(p), p)
  {
  }

  // Nothing that is called on it afterwards gives a record another last index.
  lemma NoLastIndex(w0: World, steps: seq<Step>, path: Path, calls: seq<Laws.Call>, buffers: seq<seq<byte>>,
    results: seq<bool>)
    requires Initial(w0) && Runs(w0, steps) && path in After(w0, steps).files
    requires
      var w := After(w0, steps);
      Laws.Run(calls, buffers, results) && buffers[0] == BufferOf(w.memory, w.files[path].gen)
    ensures Record.Readable(buffers[|calls|]) && Record.UnPack(buffers[|calls|]).lastIndex == -1
  {
    hide Record.Readable, Record.UnPack, Laws.Run, Record.Pack;
    InitialInv(w0);
    RunInv(w0, steps);
    var w := After(w0, steps);
    var g := w.files[path].gen;
    Filled(w, path);
    InfoSays(w.pubs[g]);
    Laws.LastIndexIsFrozen(InfoOf(w.pubs[g]), calls, buffers, results);
  }

  lemma Filled(w: World, path: Path)
    requires Inv(w) && path in w.files
    ensures
      var g := w.files[path].gen;
      && g in w.pubs && Record.Pack(InfoOf(w.pubs[g])) <= BufferOf(w.memory, g)
      && |Record.Pack(InfoOf(w.pubs[g]))| < 0x8000_0000
  {
    hide Record.Pack, FileHeld, PartsHeld;
    assert PublisherInv(w, w.files[path].gen);
  }

  // The vectors of an advertised record are there to be read, exactly if the queue is
  // not empty.
  lemma VectorsThereIffQueued(w0: World, steps: seq<Step>, path: Path, v: Record.VectorField)
    requires Initial(w0) && Runs(w0, steps) && path in After(w0, steps).files
    ensures
      var w := After(w0, steps);
      var g := w.files[path].gen;
      && Record.Readable(BufferOf(w.memory, g))
      && (Record.HasVector(BufferOf(w.memory, g), v) <==> Record.UnPack(BufferOf(w.memory, g)).queueSize > 0)
  {
    hide Record.Readable, Record.UnPack, Record.PackWith, Record.Stored, Record.HasVector, FileHeld;
    InitialInv(w0);
    RunInv(w0, steps);
    var w := After(w0, steps);
    var g := w.files[path].gen;
    assert PublisherInv(w, g);
    Laws.UnPackOfPack(BufferOf(w.memory, g), InfoOf(w.pubs[g]));
    Laws.VectorRead(BufferOf(w.memory, g), InfoOf(w.pubs[g]), Record.Stored(InfoOf(w.pubs[g])), v);
  }

  // The paths of two info files are different strings.
  lemma DistinctPaths(w0: World, steps: seq<Step>, g: Generation, g': Generation)
    requires Initial(w0) && Runs(w0, steps) && g in After(w0, steps).pubs && g' in After(w0, steps).pubs && g != g'
    requires After(w0, steps).pubs[g].HasInfo() && After(w0, steps).pubs[g'].HasInfo()
    ensures
      var p, p' := After(w0, steps).pubs[g], After(w0, steps).pubs[g'];
      InfoFileName.InfoPath(p.topic, p.pid, p.infoFd) != InfoFileName.InfoPath(p'.topic, p'.pid, p'.infoFd)
  {
    hide InfoFileName.InfoPath, RecordHeld, FileHeld, Packed, FilesOwned, DirsNumbered;
    InitialInv(w0);
    RunInv(w0, steps);
    var w := After(w0, steps);
    assert PublisherInv(w, g) && PublisherInv(w, g');
    var p, p' := w.pubs[g], w.pubs[g'];
    if InfoFileName.InfoPath(p.topic, p.pid, p.infoFd) == InfoFileName.InfoPath(p'.topic, p'.pid, p'.infoFd) {
      InfoFileName.PathInjective(p.topic, p.pid, p.infoFd, p'.topic, p'.pid, p'.infoFd);
    }
  }

  // A file disappears only when the publisher that made it removes it.
  lemma OwnRemovalOnly(w0: World, steps: seq<Step>, s: Step, path: Path)
    requires Initial(w0) && Runs(w0, steps) && Enabled(After(w0, steps), s)
    requires path in After(w0, steps).files && path !in Next(After(w0, steps), s).files
    ensures s == Act(After(w0, steps).files[path].gen, RemoveFile)
  {
    hide Packed, FdsAfter, BufferAfter, Inv;
    InitialInv(w0);
    RunInv(w0, steps);
    var w := After(w0, steps);
    RemoverInv(w, s.gen);
  }

  lemma RemoverInv(w: World, g: Generation)
    requires Inv(w) && g in w.pubs && w.pubs[g].HasInfo() && w.pubs[g].FilePath() in w.files
    ensures w.files[w.pubs[g].FilePath()].gen == g
  {
    FileIsOwn(w, g);
  }

  // A descriptor of a publisher is closed only by that publisher.
  lemma OwnClosesOnly(w0: World, steps: seq<Step>, s: Step, h: Handle)
    requires Initial(w0) && Runs(w0, steps) && Enabled(After(w0, steps), s)
    requires h in After(w0, steps).fds && h !in Next(After(w0, steps), s).fds
    ensures
      match After(w0, steps).fds[h]
      case QueueBuffer(g, k) =>
        && s == Act(g, ResetBuffer) && g in After(w0, steps).pubs
        && After(w0, steps).pubs[g].phase == Closing(k)
      case EventCounter(g) => s == Act(g, ResetEvent)
      case InfoBuffer(g) => s == Act(g, ResetInfo)
      case Foreign => s == ForeignClose(h)
  {
    hide Inv, PublisherInv, Packed, CanAct, FdsAfter, BufferAfter, FilesAfter;
    InitialInv(w0);
    RunInv(w0, steps);
    var w := After(w0, steps);
    if s.Act? {
      PartsOf(w, s.gen);
      OwnClose(w.pubs[s.gen], s.gen, w.fds, s.action, h);
    }
  }

  lemma PartsOf(w: World, g: Generation)
    requires Inv(w) && g in w.pubs
    ensures PartsHeld(w.pubs[g], g, w.fds)
  {
    assert PublisherInv(w, g);
  }

  lemma OwnClose(p: Publisher, gen: Generation, fds: map<Handle, Object>, a: Action, h: Handle)
    requires PartsHeld(p, gen, fds) && CanAct(p, fds, a) && h in fds && h !in FdsAfter(p, gen, fds, a)
    ensures
      match fds[h]
      case QueueBuffer(g, k) => g == gen && a == ResetBuffer && p.phase == Closing(k)
      case EventCounter(g) => g == gen && a == ResetEvent
      case InfoBuffer(g) => g == gen && a == ResetInfo
      case Foreign => false
  {
    hide Packed;
  }

  // ---------- What a publisher leaves behind ----------

  predicate BelongsTo(o: Object, g: Generation) {
    !o.Foreign? && o.gen == g
  }

  // Which descriptor an open object is, in terms of its publisher.
  ghost predicate Accounted(pubs: map<Generation, Publisher>, h: Handle, o: Object) {
    !o.Foreign? ==>
      && o.gen in pubs && h.pid == pubs[o.gen].pid
      && match o
         case QueueBuffer(g, k) => k < |pubs[g].queueFds| && h.fd == pubs[g].queueFds[k] && pubs[g].KeepsQueue(k)
         case EventCounter(g) => h.fd == pubs[g].eventFd && pubs[g].KeepsEvent()
         case InfoBuffer(g) => h.fd == pubs[g].infoFd && pubs[g].KeepsInfo()
         case Foreign => true
  }

  ghost predicate AllAccounted(w: World) {
    forall h :: h in w.fds ==> Accounted(w.pubs, h, w.fds[h])
  }

  lemma AccountedAct(pubs: map<Generation, Publisher>, gen: Generation, fds: map<Handle, Object>,
    dirs: map<string, nat>, a: Action, h: Handle)
    requires gen in pubs && CanAct(pubs[gen], fds, a) && h in FdsAfter(pubs[gen], gen, fds, a)
    requires h in fds ==> Accounted(pubs, h, fds[h])
    ensures Accounted(pubs[gen := Advanced(pubs[gen], fds, dirs, a)], h, FdsAfter(pubs[gen], gen, fds, a)[h])
  {
    hide Packed;
    if h in fds && !BelongsTo(fds[h], gen) {
      OthersAccounted(pubs, gen, Advanced(pubs[gen], fds, dirs, a), h, fds[h]);
    }
  }

  lemma OthersAccounted(pubs: map<Generation, Publisher>, gen: Generation, p: Publisher, h: Handle, o: Object)
    requires Accounted(pubs, h, o) && !BelongsTo(o, gen)
    ensures Accounted(pubs[gen := p], h, o)
  {
  }

  lemma AccountedStep(w: World, s: Step)
    requires Enabled(w, s) && AllAccounted(w)
    ensures AllAccounted(Next(w, s))
  {
    hide Packed, BufferAfter, FilesAfter, FdsAfter, Advanced, CanAct, Accounted;
    var w' := Next(w, s);
    forall h | h in w'.fds ensures Accounted(w'.pubs, h, w'.fds[h]) {
      match s {
        case Act(gen, a) => AccountedAct(w.pubs, gen, w.fds, w.dirs, a, h);
        case Spawn(gen, _, _, _, _) => SpawnAccounted(w, gen, w'.pubs[gen], h);
        case ForeignOpen(h') => ForeignAccounted(w.pubs, h');
        case _ =>
      }
    }
  }

  lemma SpawnAccounted(w: World, gen: Generation, p: Publisher, h: Handle)
    requires gen !in w.pubs && h in w.fds && Accounted(w.pubs, h, w.fds[h])
    ensures Accounted(w.pubs[gen := p], h, w.fds[h])
  {
  }

  lemma ForeignAccounted(pubs: map<Generation, Publisher>, h: Handle)
    ensures Accounted(pubs, h, Foreign)
  {
  }

  lemma {:induction false} AccountedRun(w: World, steps: seq<Step>)
    requires AllAccounted(w) && Runs(w, steps)
    ensures AllAccounted(After(w, steps))
    decreases |steps|
  {
    hide AllAccounted, Enabled, Next;
    if steps != [] {
      AccountedStep(w, steps[0]);
      AccountedRun(Next(w, steps[0]), steps[1..]);
    }
  }

  // A destructed publisher has closed everything, exactly when it was never handed
  // descriptor 0.
  lemma ClosedUnlessZero(w0: World, steps: seq<Step>, g: Generation)
    requires Initial(w0) && Runs(w0, steps) && g in After(w0, steps).pubs && After(w0, steps).pubs[g].phase.Dead?
    ensures
      var w := After(w0, steps);
      var p := w.pubs[g];
      (forall h :: h in w.fds ==> !BelongsTo(w.fds[h], g)) <==> 0 !in p.queueFds && p.eventFd != 0 && p.infoFd != 0
  {
    hide Packed, RecordHeld, FileHeld, FilesOwned, DirsNumbered;
    InitialInv(w0);
    RunInv(w0, steps);
    AccountedRun(w0, steps);
    var w := After(w0, steps);
    assert PublisherInv(w, g);
    var p := w.pubs[g];
    if 0 in p.queueFds {
      var k :| 0 <= k < |p.queueFds| && p.queueFds[k] == 0;
      assert p.KeepsQueue(k);
      assert BelongsTo(w.fds[Handle(p.pid, 0)], g);
    } else if p.eventFd == 0 || p.infoFd == 0 {
      assert BelongsTo(w.fds[Handle(p.pid, 0)], g);
    } else {
      forall h | h in w.fds ensures !BelongsTo(w.fds[h], g) {
        assert Accounted(w.pubs, h, w.fds[h]);
      }
    }
  }
}
