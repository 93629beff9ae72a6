// The publisher's constructor and destructor: the steps they take, in their order, and
// what they come to when nobody interferes.
module PublisherBase {
  import opened Bytes
  import opened PublisherWorld
  import Record = PublisherInfo
  import opened TopicName

  // The kernel, which takes one step at a time.
  class Kernel {
    var world: World

    method Appear(gen: Generation, pid: Int31, topic: string, messageSize: uint64, queueSize: uint64)
      requires Inv(world) && gen !in world.pubs
      modifies this
      ensures Inv(world)
      ensures
        world == old(world).(pubs := old(world).pubs[gen :=
          Publisher(pid, topic, messageSize, queueSize, [], 0, 0, false, Starting)])
    {
      hide Inv;
      var s := Spawn(gen, pid, topic, messageSize, queueSize);
      StepInv(world, s);
      world := Next(world, s);
    }

    method Do(gen: Generation, a: Action)
      requires Inv(world) && gen in world.pubs && CanAct(world.pubs[gen], world.fds, a)
      modifies this
      ensures Inv(world) && world.pubs - {gen} == old(world.pubs) - {gen}
      ensures gen in world.pubs && world.pubs[gen] == Advanced(old(world.pubs[gen]), old(world.fds), old(world.dirs), a)
      ensures world.fds == FdsAfter(old(world.pubs[gen]), gen, old(world.fds), a)
      ensures world.files == FilesAfter(old(world.pubs[gen]), gen, old(world.files), old(world.dirs), a)
      ensures !a.InitTopicPath? ==> world.dirs == old(world.dirs)
      ensures a.InitTopicPath? ==> world.dirs.Keys == old(world.dirs.Keys) + {old(world.pubs[gen]).topic}
    {
      hide *;
      CanIsEnabled(world, gen, a);
      StepInv(world, Act(gen, a));
      ActEffect(world, gen, a);
      Apart(world.pubs, gen, Advanced(world.pubs[gen], world.fds, world.dirs, a));
      world := Next(world, Act(gen, a));
    }

    method MakeDirectory(gen: Generation)
      requires Inv(world) && gen in world.pubs
      requires world.pubs[gen].phase.Starting?
      modifies this
      ensures Inv(world) && world.pubs - {gen} == old(world.pubs) - {gen}
      ensures gen in world.pubs && world.pubs[gen] == old(world.pubs[gen]).(phase := Allocating)
      ensures world.fds == old(world.fds)
      ensures world.files == old(world.files)
      ensures world.dirs.Keys == old(world.dirs.Keys) + {old(world.pubs[gen]).topic}
    {
      hide Inv, Packed;
      Do(gen, InitTopicPath);
    }

    method OpenQueueBuffer(gen: Generation, fd: Int31)
      requires Inv(world) && gen in world.pubs
      requires world.pubs[gen].phase.Allocating? && |world.pubs[gen].queueFds| < world.pubs[gen].queueSize
          && Handle(world.pubs[gen].pid, fd) !in world.fds
      modifies this
      ensures Inv(world) && world.pubs - {gen} == old(world.pubs) - {gen}
      ensures gen in world.pubs && world.pubs[gen] ==
          old(world.pubs[gen]).(queueFds := old(world.pubs[gen]).queueFds + [fd])
      ensures
        var p := old(world.pubs[gen]);
        world.fds == old(world.fds)[Handle(p.pid, fd) := QueueBuffer(gen, |p.queueFds|)]
      ensures world.files == old(world.files)
      ensures world.dirs == old(world.dirs)
    {
      hide Inv, Packed;
      Do(gen, AllocateBuffer(fd));
    }

    method OpenEvent(gen: Generation, fd: Int31)
      requires Inv(world) && gen in world.pubs
      requires world.pubs[gen].phase.Allocating? && |world.pubs[gen].queueFds| == world.pubs[gen].queueSize
          && Handle(world.pubs[gen].pid, fd) !in world.fds
      modifies this
      ensures Inv(world) && world.pubs - {gen} == old(world.pubs) - {gen}
      ensures gen in world.pubs && world.pubs[gen] == old(world.pubs[gen]).(eventFd := fd, phase := Describing)
      ensures world.fds == old(world.fds)[Handle(old(world.pubs[gen]).pid, fd) := EventCounter(gen)]
      ensures world.files == old(world.files)
      ensures world.dirs == old(world.dirs)
    {
      hide Inv, Packed;
      Do(gen, CreateEvent(fd));
    }

    method OpenInfoBuffer(gen: Generation, fd: Int31, size: nat)
      requires Inv(world) && gen in world.pubs
      requires world.pubs[gen].phase.Describing? && Handle(world.pubs[gen].pid, fd) !in world.fds
          && |Packed(world.pubs[gen])| <= size && |Packed(world.pubs[gen])| < 0x8000_0000
      modifies this
      ensures Inv(world) && world.pubs - {gen} == old(world.pubs) - {gen}
      ensures gen in world.pubs && world.pubs[gen] == old(world.pubs[gen]).(infoFd := fd, phase := Writing(0))
      ensures world.fds == old(world.fds)[Handle(old(world.pubs[gen]).pid, fd) := InfoBuffer(gen)]
      ensures world.files == old(world.files)
      ensures world.dirs == old(world.dirs)
    {
      hide Inv, Packed;
      Do(gen, AllocateInfo(fd, size));
    }

    method WriteByte(gen: Generation)
      requires Inv(world) && gen in world.pubs
      requires world.pubs[gen].phase.Writing? && world.pubs[gen].phase.written < |Packed(world.pubs[gen])|
      modifies this
      ensures Inv(world) && world.pubs - {gen} == old(world.pubs) - {gen}
      ensures gen in world.pubs && world.pubs[gen] ==
          old(world.pubs[gen]).(phase := Writing(old(world.pubs[gen]).phase.written + 1))
      ensures world.fds == old(world.fds)
      ensures world.files == old(world.files)
      ensures world.dirs == old(world.dirs)
    {
      hide Inv, Packed;
      Do(gen, WriteInfo(1));
    }

    // Opening makes a new file, if the directory is there, never finding one that exists.
    method CreateInfoFile(gen: Generation)
      requires Inv(world) && gen in world.pubs
      requires world.pubs[gen].phase.Writing? && world.pubs[gen].phase.written == |Packed(world.pubs[gen])|
      modifies this
      ensures Inv(world) && world.pubs - {gen} == old(world.pubs) - {gen}
      ensures gen in world.pubs
      ensures
        var p := old(world.pubs[gen]);
        && world.pubs[gen] == p.(phase := Creating, advertised := p.topic in world.dirs)
        && world.files ==
           if p.topic in world.dirs then old(world.files)[p.FilePath() := File(gen, false)] else old(world.files)
      ensures world.fds == old(world.fds) && world.dirs == old(world.dirs)
    {
      hide Inv, Packed;
      NoFileYet(world, gen);
      Do(gen, CreateFile);
    }

    // The file that was made is finished.
    method CloseInfoFile(gen: Generation)
      requires Inv(world) && gen in world.pubs
      requires world.pubs[gen].phase.Creating?
      modifies this
      ensures Inv(world) && world.pubs - {gen} == old(world.pubs) - {gen}
      ensures gen in world.pubs && world.pubs[gen] == old(world.pubs[gen]).(phase := Live)
      ensures
        var p := old(world.pubs[gen]);
        world.files == if p.advertised then old(world.files)[p.FilePath() := File(gen, true)] else old(world.files)
      ensures world.fds == old(world.fds) && world.dirs == old(world.dirs)
    {
      hide Inv, Packed;
      if world.pubs[gen].advertised {
        FileThere(world, gen);
      }
      Do(gen, CloseFile);
    }

    method Unlink(gen: Generation)
      requires Inv(world) && gen in world.pubs
      requires world.pubs[gen].phase.Live?
      modifies this
      ensures Inv(world) && world.pubs - {gen} == old(world.pubs) - {gen}
      ensures gen in world.pubs && world.pubs[gen] == old(world.pubs[gen]).(phase := Removed)
      ensures world.fds == old(world.fds)
      ensures world.files == old(world.files) - {old(world.pubs[gen]).FilePath()}
      ensures world.dirs == old(world.dirs)
    {
      hide Inv, Packed;
      Do(gen, RemoveFile);
    }

    method CloseInfoBuffer(gen: Generation)
      requires Inv(world) && gen in world.pubs
      requires world.pubs[gen].phase.Removed?
      modifies this
      ensures Inv(world) && world.pubs - {gen} == old(world.pubs) - {gen}
      ensures gen in world.pubs && world.pubs[gen] == old(world.pubs[gen]).(phase := Closing(0))
      ensures world.fds == Close(old(world.fds), old(world.pubs[gen]).Name())
      ensures world.files == old(world.files)
      ensures world.dirs == old(world.dirs)
    {
      hide Inv, Packed;
      Do(gen, ResetInfo);
    }

    method CloseQueueBuffer(gen: Generation)
      requires Inv(world) && gen in world.pubs
      requires world.pubs[gen].phase.Closing? && world.pubs[gen].phase.closed < |world.pubs[gen].queueFds|
      modifies this
      ensures Inv(world) && world.pubs - {gen} == old(world.pubs) - {gen}
      ensures gen in world.pubs && world.pubs[gen] ==
          old(world.pubs[gen]).(phase := Closing(old(world.pubs[gen]).phase.closed + 1))
      ensures
        var p := old(world.pubs[gen]);
        world.fds == Close(old(world.fds), Handle(p.pid, p.queueFds[p.phase.closed]))
      ensures world.files == old(world.files)
      ensures world.dirs == old(world.dirs)
    {
      hide Inv, Packed;
      Do(gen, ResetBuffer);
    }

    method CloseEvent(gen: Generation)
      requires Inv(world) && gen in world.pubs
      requires world.pubs[gen].phase.Closing? && world.pubs[gen].phase.closed == |world.pubs[gen].queueFds|
      modifies this
      ensures Inv(world) && world.pubs - {gen} == old(world.pubs) - {gen}
      ensures gen in world.pubs && world.pubs[gen] == old(world.pubs[gen]).(phase := Dead)
      ensures world.fds == Close(old(world.fds), Handle(old(world.pubs[gen]).pid, old(world.pubs[gen]).eventFd))
      ensures world.files == old(world.files)
      ensures world.dirs == old(world.dirs)
    {
      hide Inv, Packed;
      Do(gen, ResetEvent);
    }
  }

  lemma CanIsEnabled(w: World, gen: Generation, a: Action)
    requires gen in w.pubs && CanAct(w.pubs[gen], w.fds, a)
    ensures Enabled(w, Act(gen, a))
  {
  }

  lemma Apart(pubs: map<Generation, Publisher>, gen: Generation, p: Publisher)
    ensures pubs[gen := p] - {gen} == pubs - {gen}
  {
  }

  lemma FileThere(w: World, gen: Generation)
    requires Inv(w) && gen in w.pubs && w.pubs[gen].HasFile()
    ensures w.pubs[gen].FilePath() in w.files
    ensures w.files[w.pubs[gen].FilePath()] == File(gen, w.pubs[gen].phase.Live?)
  {
    hide PartsHeld, RecordHeld, Packed;
    assert PublisherInv(w, gen);
  }

  // The record of a publisher, filled in field by field.
  method FillInfo(messageSize: uint64, queueSize: uint64, pid: Int31, eventFd: Int31, dmaBuffers: seq<Int31>)
    returns (info: Record.PublisherInfoT)
    requires |dmaBuffers| == queueSize
    ensures info == InfoOf(Publisher(pid, "", messageSize, queueSize, dmaBuffers, eventFd, 0, false, Describing))
    ensures info.queueSize == queueSize && info.messageSize == messageSize && info.pid == pid
    ensures info.eventFd == eventFd && info.dmaBuffFd == dmaBuffers && info.lastIndex == -1
    ensures |info.indexCyclePool| == queueSize && forall i | 0 <= i < queueSize :: info.indexCyclePool[i] == -1
    ensures |info.timestampPool| == |info.msgIdPool| == queueSize
    ensures forall i | 0 <= i < queueSize :: info.timestampPool[i] == Record.TimeStamp(0, 0) && info.msgIdPool[i] == 0
  {
    var dmaBuffFd: seq<int32> := seq(queueSize, _ => 0);
    var indexCyclePool: seq<int32> := seq(queueSize, _ => 0);
    var timestampPool := seq(queueSize, _ => Record.TimeStamp(0, 0));
    var msgIdPool: seq<uint64> := seq(queueSize, _ => 0);
    var id := 0;
    while id < |dmaBuffers|
      invariant 0 <= id <= |dmaBuffers| == |dmaBuffFd|
      invariant dmaBuffFd[..id] == dmaBuffers[..id]
    {
      dmaBuffFd := dmaBuffFd[id := dmaBuffers[id]];
      id := id + 1;
    }
    id := 0;
    while id < queueSize
      invariant 0 <= id <= queueSize == |indexCyclePool|
      invariant forall k | 0 <= k < id :: indexCyclePool[k] == -1
    {
      indexCyclePool := indexCyclePool[id := -1];
      id := id + 1;
    }
    assert dmaBuffFd == dmaBuffers;
    info := Record.PublisherInfoT(
      queueSize, messageSize, pid, eventFd, dmaBuffFd, -1, indexCyclePool, timestampPool, msgIdPool);
  }

  // ---------- What the kernel hands out and takes back ----------

  // The open descriptors with a publisher's queue buffers.
  function WithBuffers(fds: map<Handle, Object>, pid: Int31, gen: Generation, buffers: seq<Int31>): map<Handle, Object>
    decreases |buffers|
  {
    if buffers == [] then fds
    else
      var k := |buffers| - 1;
      WithBuffers(fds, pid, gen, buffers[..k])[Handle(pid, buffers[k]) := QueueBuffer(gen, k)]
  }

  lemma {:induction false} WithBuffersOpen(fds: map<Handle, Object>, pid: Int31, gen: Generation, buffers: seq<Int31>)
    ensures forall h :: h in WithBuffers(fds, pid, gen, buffers) <==> h in fds || (h.pid == pid && h.fd in buffers)
    decreases |buffers|
  {
    if buffers != [] {
      var k := |buffers| - 1;
      WithBuffersOpen(fds, pid, gen, buffers[..k]);
      assert buffers == buffers[..k] + [buffers[k]];
    }
  }

  // Descriptors the kernel can hand out one after the other.
  ghost predicate Answers(fds: map<Handle, Object>, pid: Int31, buffers: seq<Int31>, eventFd: Int31, infoFd: Int31) {
    && (forall i, j | 0 <= i < j < |buffers| :: buffers[i] != buffers[j])
    && eventFd !in buffers && infoFd !in buffers && eventFd != infoFd
    && Handle(pid, eventFd) !in fds && Handle(pid, infoFd) !in fds
    && (forall fd :: fd in buffers ==> Handle(pid, fd) !in fds)
  }

  // The open descriptors with all parts of a publisher.
  function WithParts(fds: map<Handle, Object>, gen: Generation, p: Publisher): map<Handle, Object> {
    WithBuffers(fds, p.pid, gen, p.queueFds)[Handle(p.pid, p.eventFd) := EventCounter(gen)][p.Name() := InfoBuffer(gen)]
  }

  // The open descriptors after all buffers up to n have been closed,
  function WithoutBuffers(fds: map<Handle, Object>, pid: Int31, buffers: seq<Int31>, n: nat): map<Handle, Object>
    requires n <= |buffers|
    decreases n
  {
    if n == 0 then fds else Close(WithoutBuffers(fds, pid, buffers, n - 1), Handle(pid, buffers[n - 1]))
  }

  // and after all parts have.
  function WithoutParts(fds: map<Handle, Object>, p: Publisher): map<Handle, Object> {
    Close(WithoutBuffers(Close(fds, p.Name()), p.pid, p.queueFds, |p.queueFds|), Handle(p.pid, p.eventFd))
  }

  lemma {:induction false} WithoutBuffersOpen(fds: map<Handle, Object>, pid: Int31, buffers: seq<Int31>, n: nat)
    requires n <= |buffers|
    ensures
      var after := WithoutBuffers(fds, pid, buffers, n);
      forall h :: (h in after <==> h in fds && !(h.pid == pid && h.fd > 0 && h.fd in buffers[..n]))
        && (h in after ==> after[h] == fds[h])
    decreases n
  {
    if n > 0 {
      WithoutBuffersOpen(fds, pid, buffers, n - 1);
      assert buffers[..n] == buffers[..n - 1] + [buffers[n - 1]];
    }
  }

  lemma {:induction false} WithBuffersKeep(fds: map<Handle, Object>, pid: Int31, gen: Generation, buffers: seq<Int31>)
    requires forall fd :: fd in buffers ==> Handle(pid, fd) !in fds
    ensures
      var after := WithBuffers(fds, pid, gen, buffers);
      forall h :: h in fds ==> h in after && after[h] == fds[h]
    decreases |buffers|
  {
    if buffers != [] {
      var k := |buffers| - 1;
      assert forall fd :: fd in buffers[..k] ==> fd in buffers;
      WithBuffersKeep(fds, pid, gen, buffers[..k]);
      assert buffers[k] in buffers;
    }
  }

  // What is left of a constructor's descriptors is descriptor 0.
  lemma LeavesZero(fds: map<Handle, Object>, gen: Generation, p: Publisher, h: Handle)
    requires Answers(fds, p.pid, p.queueFds, p.eventFd, p.infoFd)
    ensures
      var after := WithoutParts(WithParts(fds, gen, p), p);
      && (h in after <==> h in fds || (h == Handle(p.pid, 0) && (0 in p.queueFds || p.eventFd == 0 || p.infoFd == 0)))
      && (h in fds ==> after[h] == fds[h])
  {
    hide WithBuffers, WithoutBuffers;
    var open := WithParts(fds, gen, p);
    WithBuffersOpen(fds, p.pid, gen, p.queueFds);
    WithBuffersKeep(fds, p.pid, gen, p.queueFds);
    WithoutBuffersOpen(Close(open, p.Name()), p.pid, p.queueFds, |p.queueFds|);
    assert p.queueFds[..|p.queueFds|] == p.queueFds;
  }

  // Closing everything a constructor opened leaves what was open before, exactly when
  // none of it was descriptor 0.
  lemma ClosesWhatItOpened(fds: map<Handle, Object>, gen: Generation, p: Publisher)
    requires Answers(fds, p.pid, p.queueFds, p.eventFd, p.infoFd)
    ensures WithoutParts(WithParts(fds, gen, p), p) == fds <==> 0 !in p.queueFds && p.eventFd != 0 && p.infoFd != 0
  {
    hide WithParts, WithoutParts;
    var after := WithoutParts(WithParts(fds, gen, p), p);
    forall h: Handle
      ensures h in fds ==> h in after && after[h] == fds[h]
      ensures h in after && h !in fds <==>
                h == Handle(p.pid, 0) && (0 in p.queueFds || p.eventFd == 0 || p.infoFd == 0)
    {
      LeavesZero(fds, gen, p, h);
    }
  }

  // ---------- The class ----------

  class PublisherBase {
    const gen: Generation
    var pid: Int31
    var topicName: string
    var dmaBuffers: seq<Int31>
    var event: Int31
    var infoBuffer: Int31

    // The publisher this object is.
    function State(messageSize: uint64, queueSize: uint64, advertised: bool, phase: Phase): Publisher
      reads this
    {
      Publisher(pid, topicName, messageSize, queueSize, dmaBuffers, event, infoBuffer, advertised, phase)
    }

    // The descriptors are the kernel's answers.
    constructor (kernel: Kernel, gen: Generation, pid: Int31, topicName: string, messageSize: uint64, queueSize: uint64,
      buffers: seq<Int31>, eventFd: Int31, infoFd: Int31, size: nat)
      requires Usable(topicName) && Inv(kernel.world) && gen !in kernel.world.pubs && |buffers| == queueSize
      requires Answers(kernel.world.fds, pid, buffers, eventFd, infoFd)
      requires
        var p := Publisher(pid, Canonical(topicName), messageSize, queueSize, buffers, eventFd, infoFd, true, Live);
        |Packed(p)| <= size && |Packed(p)| < 0x8000_0000
      modifies kernel
      ensures this.gen == gen && this.pid == pid && this.topicName == Canonical(topicName)
      ensures dmaBuffers == buffers && event == eventFd && infoBuffer == infoFd
      ensures Inv(kernel.world) && kernel.world.pubs - {gen} == old(kernel.world.pubs) - {gen}
      ensures gen in kernel.world.pubs && kernel.world.pubs[gen] == State(messageSize, queueSize, true, Live)
      ensures kernel.world.fds == WithParts(old(kernel.world.fds), gen, State(messageSize, queueSize, true, Live))
      ensures
        kernel.world.files ==
          old(kernel.world.files)[State(messageSize, queueSize, true, Live).FilePath() := File(gen, true)]
    {
      hide *;
      this.gen := gen;
      this.pid := pid;
      var topic := SimplifyTopicName(topicName);
      this.topicName := topic;
      this.dmaBuffers := buffers;
      this.event := eventFd;
      this.infoBuffer := infoFd;
      new;
      Construct(kernel, gen, Publisher(pid, topic, messageSize, queueSize, buffers, eventFd, infoFd, true, Live), size);
      StateIs(messageSize, queueSize, true, Live);
    }

    // The publisher may have been advertised or, for want of the directory, not.
    method Destroy(kernel: Kernel, ghost messageSize: uint64, ghost queueSize: uint64, ghost advertised: bool)
      requires Inv(kernel.world) && gen in kernel.world.pubs
      requires kernel.world.pubs[gen] == State(messageSize, queueSize, advertised, Live)
      modifies this, kernel
      ensures Inv(kernel.world) && kernel.world.pubs - {gen} == old(kernel.world.pubs) - {gen}
      ensures gen in kernel.world.pubs && kernel.world.pubs[gen] == old(State(messageSize, queueSize, advertised, Dead))
      ensures
        var p := old(State(messageSize, queueSize, advertised, Live));
        && kernel.world.fds == WithoutParts(old(kernel.world.fds), p)
        && kernel.world.files == old(kernel.world.files) - {p.FilePath()}
      ensures dmaBuffers == []
    {
      hide *;
      ghost var p := kernel.world.pubs[gen];
      StateIs(messageSize, queueSize, advertised, Live);
      StateIs(messageSize, queueSize, advertised, Dead);
      StartClosing(kernel.world.fds, p);
      kernel.Unlink(gen);
      PathIs(p);
      kernel.CloseInfoBuffer(gen);
      var it := 0;
      while it < |dmaBuffers|
        invariant 0 <= it <= |dmaBuffers| && dmaBuffers == p.queueFds
        invariant Inv(kernel.world) && kernel.world.pubs - {gen} == old(kernel.world.pubs) - {gen}
        invariant gen in kernel.world.pubs && kernel.world.pubs[gen] == p.(phase := Closing(it))
        invariant kernel.world.fds == WithoutBuffers(Close(old(kernel.world.fds), p.Name()), p.pid, p.queueFds, it)
        invariant kernel.world.files == old(kernel.world.files) - {p.FilePath()}
      {
        CloseNext(Close(old(kernel.world.fds), p.Name()), p.pid, p.queueFds, it);
        kernel.CloseQueueBuffer(gen);
        it := it + 1;
      }
      kernel.CloseEvent(gen);
      dmaBuffers := [];
    }

    lemma StateIs(messageSize: uint64, queueSize: uint64, advertised: bool, phase: Phase)
      ensures
        State(messageSize, queueSize, advertised, phase) ==
          Publisher(pid, topicName, messageSize, queueSize, dmaBuffers, event, infoBuffer, advertised, phase)
    {
    }
  }

  lemma StartClosing(fds: map<Handle, Object>, p: Publisher)
    ensures WithoutBuffers(Close(fds, p.Name()), p.pid, p.queueFds, 0) == Close(fds, p.Name())
    ensures
      WithoutParts(fds, p) ==
        Close(WithoutBuffers(Close(fds, p.Name()), p.pid, p.queueFds, |p.queueFds|), Handle(p.pid, p.eventFd))
    ensures forall phase :: p.(phase := phase).Name() == p.Name() && p.(phase := phase).FilePath() == p.FilePath()
  {
  }

  lemma CloseNext(fds: map<Handle, Object>, pid: Int31, buffers: seq<Int31>, n: nat)
    requires n < |buffers|
    ensures WithoutBuffers(fds, pid, buffers, n + 1) ==
        Close(WithoutBuffers(fds, pid, buffers, n), Handle(pid, buffers[n]))
  {
  }

  // A publisher that comes and goes leaves the directory as it was, and the open
  // descriptors too, exactly when it was never handed descriptor 0.
  method ComeAndGo(kernel: Kernel, gen: Generation, pid: Int31, topicName: string, messageSize: uint64,
    queueSize: uint64, buffers: seq<Int31>, eventFd: Int31, infoFd: Int31, size: nat)
    requires Usable(topicName) && Inv(kernel.world) && gen !in kernel.world.pubs && |buffers| == queueSize
    requires Answers(kernel.world.fds, pid, buffers, eventFd, infoFd)
    requires
      var p := Publisher(pid, Canonical(topicName), messageSize, queueSize, buffers, eventFd, infoFd, true, Live);
      |Packed(p)| <= size && |Packed(p)| < 0x8000_0000
    modifies kernel
    ensures Inv(kernel.world)
    ensures kernel.world.files == old(kernel.world.files)
    ensures kernel.world.fds == old(kernel.world.fds) <==> 0 !in buffers && eventFd != 0 && infoFd != 0
  {
    hide *;
    ghost var p := Publisher(pid, Canonical(topicName), messageSize, queueSize, buffers, eventFd, infoFd, true, Live);
    NameIsFree(kernel.world, p);
    var publisher := new PublisherBase(
      kernel, gen, pid, topicName, messageSize, queueSize, buffers, eventFd, infoFd, size);
    publisher.StateIs(messageSize, queueSize, true, Live);
    assert publisher.State(messageSize, queueSize, true, Live) == p;
    publisher.Destroy(kernel, messageSize, queueSize, true);
    ClosesWhatItOpened(old(kernel.world.fds), gen, p);
    assert old(kernel.world.files)[p.FilePath() := File(gen, true)] - {p.FilePath()} == old(kernel.world.files);
  }

  lemma NameIsFree(w: World, p: Publisher)
    requires Inv(w) && Answers(w.fds, p.pid, p.queueFds, p.eventFd, p.infoFd)
    ensures p.FilePath() !in w.files
  {
    hide RecordHeld, FileHeld, Packed;
    forall path | path in w.files ensures path != p.FilePath() {
      assert PublisherInv(w, w.files[path].gen);
    }
  }

  // The steps of the constructor, which make a publisher p.
  method Construct(kernel: Kernel, gen: Generation, p: Publisher, size: nat)
    requires Inv(kernel.world) && gen !in kernel.world.pubs && |p.queueFds| == p.queueSize
    requires p.advertised && p.phase.Live?
    requires Answers(kernel.world.fds, p.pid, p.queueFds, p.eventFd, p.infoFd)
    requires |Packed(p)| <= size && |Packed(p)| < 0x8000_0000
    modifies kernel
    ensures Inv(kernel.world) && kernel.world.pubs - {gen} == old(kernel.world.pubs) - {gen}
    ensures gen in kernel.world.pubs && kernel.world.pubs[gen] == p
    ensures kernel.world.fds == WithParts(old(kernel.world.fds), gen, p)
    ensures kernel.world.files == old(kernel.world.files)[p.FilePath() := File(gen, true)]
  {
    hide *;
    BuffersAnswered(kernel.world.fds, gen, p);
    kernel.Appear(gen, p.pid, p.topic, p.messageSize, p.queueSize);
    kernel.MakeDirectory(gen);
    AllocateBuffers(kernel, gen, p.queueFds);
    kernel.OpenEvent(gen, p.eventFd);
    var info := FillInfo(p.messageSize, p.queueSize, p.pid, p.eventFd, p.queueFds);
    ghost var q := kernel.world.pubs[gen];
    assert q == p.(infoFd := 0, advertised := false, phase := Describing);
    SameRecord(p, q);
    SameInfo(q, info);
    ShareInfo(kernel, gen, info, p.infoFd, size);
    PathIs(p);
  }

  lemma BuffersAnswered(fds: map<Handle, Object>, gen: Generation, p: Publisher)
    requires Answers(fds, p.pid, p.queueFds, p.eventFd, p.infoFd)
    ensures
      var buffers, after := p.queueFds, WithBuffers(fds, p.pid, gen, p.queueFds);
      && (forall i, j | 0 <= i < j < |buffers| :: buffers[i] != buffers[j])
      && (forall fd :: fd in buffers ==> Handle(p.pid, fd) !in fds)
      && Handle(p.pid, p.eventFd) !in after
      && Handle(p.pid, p.infoFd) !in after[Handle(p.pid, p.eventFd) := EventCounter(gen)]
      && WithParts(fds, gen, p) ==
         after[Handle(p.pid, p.eventFd) := EventCounter(gen)][Handle(p.pid, p.infoFd) := InfoBuffer(gen)]
  {
    WithBuffersOpen(fds, p.pid, gen, p.queueFds);
  }

  lemma SameInfo(q: Publisher, info: Record.PublisherInfoT)
    requires info == InfoOf(Publisher(q.pid, "", q.messageSize, q.queueSize, q.queueFds, q.eventFd, 0, false,
        Describing))
    ensures info == InfoOf(q)
  {
    SameRecord(Publisher(q.pid, "", q.messageSize, q.queueSize, q.queueFds, q.eventFd, 0, false, Describing), q);
  }

  method AllocateBuffers(kernel: Kernel, gen: Generation, buffers: seq<Int31>)
    requires Inv(kernel.world) && gen in kernel.world.pubs
    requires
      var p := kernel.world.pubs[gen];
      && p.phase == Allocating && p.queueFds == [] && |buffers| == p.queueSize
      && (forall i, j | 0 <= i < j < |buffers| :: buffers[i] != buffers[j])
      && (forall fd :: fd in buffers ==> Handle(p.pid, fd) !in kernel.world.fds)
    modifies kernel
    ensures Inv(kernel.world) && kernel.world.pubs - {gen} == old(kernel.world.pubs) - {gen}
    ensures gen in kernel.world.pubs && kernel.world.pubs[gen] == old(kernel.world.pubs[gen]).(queueFds := buffers)
    ensures kernel.world.fds == WithBuffers(old(kernel.world.fds), old(kernel.world.pubs[gen]).pid, gen, buffers)
    ensures kernel.world.files == old(kernel.world.files) && kernel.world.dirs == old(kernel.world.dirs)
  {
    hide Inv, Packed, WithBuffers;
    ghost var fds, p := kernel.world.fds, kernel.world.pubs[gen];
    WithBuffersStep(fds, p.pid, gen, buffers, 0);
    var id := 0;
    while id < |buffers|
      invariant 0 <= id <= |buffers|
      invariant Inv(kernel.world) && kernel.world.pubs - {gen} == old(kernel.world.pubs) - {gen}
      invariant gen in kernel.world.pubs && kernel.world.pubs[gen] == p.(queueFds := buffers[..id])
      invariant kernel.world.fds == WithBuffers(fds, p.pid, gen, buffers[..id])
      invariant kernel.world.files == old(kernel.world.files) && kernel.world.dirs == old(kernel.world.dirs)
    {
      WithBuffersStep(fds, p.pid, gen, buffers, id);
      kernel.OpenQueueBuffer(gen, buffers[id]);
      id := id + 1;
    }
    assert buffers[..id] == buffers;
  }

  lemma WithBuffersStep(fds: map<Handle, Object>, pid: Int31, gen: Generation, buffers: seq<Int31>, id: nat)
    requires id <= |buffers|
    requires forall i, j | 0 <= i < j < |buffers| :: buffers[i] != buffers[j]
    requires forall fd :: fd in buffers ==> Handle(pid, fd) !in fds
    ensures id == 0 ==> buffers[..0] == [] && WithBuffers(fds, pid, gen, []) == fds
    ensures id < |buffers| ==>
              && Handle(pid, buffers[id]) !in WithBuffers(fds, pid, gen, buffers[..id])
              && buffers[..id + 1] == buffers[..id] + [buffers[id]]
              && WithBuffers(fds, pid, gen, buffers[..id + 1]) ==
                 WithBuffers(fds, pid, gen, buffers[..id])[Handle(pid, buffers[id]) := QueueBuffer(gen, id)]
  {
    hide WithBuffers;
    WithBuffersOpen(fds, pid, gen, buffers[..id]);
    NoBuffers(fds, pid, gen);
    if id < |buffers| {
      assert buffers[id] !in buffers[..id];
      OneBufferMore(fds, pid, gen, buffers[..id], buffers[id]);
    }
  }

  lemma NoBuffers(fds: map<Handle, Object>, pid: Int31, gen: Generation)
    ensures WithBuffers(fds, pid, gen, []) == fds
  {
  }

  lemma OneBufferMore(fds: map<Handle, Object>, pid: Int31, gen: Generation, buffers: seq<Int31>, fd: Int31)
    ensures
      WithBuffers(fds, pid, gen, buffers + [fd]) ==
        WithBuffers(fds, pid, gen, buffers)[Handle(pid, fd) := QueueBuffer(gen, |buffers|)]
  {
    assert (buffers + [fd])[..|buffers|] == buffers;
  }

  // The info buffer is allocated, filled byte by byte and then advertised,
  // unless the directory is gone.
  method ShareInfo(kernel: Kernel, gen: Generation, info: Record.PublisherInfoT, infoFd: Int31, size: nat)
    requires Inv(kernel.world) && gen in kernel.world.pubs
    requires
      var p := kernel.world.pubs[gen];
      && p.phase == Describing && info == InfoOf(p) && Handle(p.pid, infoFd) !in kernel.world.fds
      && |Packed(p)| <= size && |Packed(p)| < 0x8000_0000
    modifies kernel
    ensures Inv(kernel.world) && kernel.world.pubs - {gen} == old(kernel.world.pubs) - {gen}
    ensures gen in kernel.world.pubs
    ensures
      var p := old(kernel.world.pubs[gen]);
      && kernel.world.dirs == old(kernel.world.dirs)
      && kernel.world.pubs[gen] == p.(infoFd := infoFd, advertised := p.topic in kernel.world.dirs, phase := Live)
      && kernel.world.fds == old(kernel.world.fds)[Handle(p.pid, infoFd) := InfoBuffer(gen)]
      && kernel.world.files ==
         if p.topic in kernel.world.dirs then
           old(kernel.world.files)[Path(p.topic, Handle(p.pid, infoFd)) := File(gen, true)]
         else old(kernel.world.files)
  {
    hide *;
    ghost var p := kernel.world.pubs[gen];
    ghost var path := Path(p.topic, Handle(p.pid, infoFd));
    var bytes := Record.Pack(info);
    PackedIs(p);
    kernel.OpenInfoBuffer(gen, infoFd, size);
    var i := 0;
    while i < |bytes|
      invariant 0 <= i <= |bytes|
      invariant Inv(kernel.world) && kernel.world.pubs - {gen} == old(kernel.world.pubs) - {gen}
      invariant gen in kernel.world.pubs && kernel.world.pubs[gen] == p.(infoFd := infoFd, phase := Writing(i))
      invariant kernel.world.fds == old(kernel.world.fds)[Handle(p.pid, infoFd) := InfoBuffer(gen)]
      invariant kernel.world.files == old(kernel.world.files) && kernel.world.dirs == old(kernel.world.dirs)
    {
      SameRecord(p, kernel.world.pubs[gen]);
      kernel.WriteByte(gen);
      i := i + 1;
    }
    SameRecord(p, kernel.world.pubs[gen]);
    PathIs(kernel.world.pubs[gen]);
    kernel.CreateInfoFile(gen);
    PathIs(kernel.world.pubs[gen]);
    kernel.CloseInfoFile(gen);
    assert old(kernel.world.files)[path := File(gen, false)][path := File(gen, true)] ==
      old(kernel.world.files)[path := File(gen, true)];
  }

  lemma PathIs(p: Publisher)
    ensures p.FilePath() == Path(p.topic, Handle(p.pid, p.infoFd))
  {
  }

  lemma PackedIs(p: Publisher)
    ensures Packed(p) == Record.Pack(InfoOf(p))
  {
  }
}
