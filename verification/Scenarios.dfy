// Runs of the whole system, put together: publishers that come, finish their files and go,
// next to a subscriber that does not hear of it.
module Scenarios {
  import opened Wrappers
  import opened Bytes
  import opened PublisherWorld
  import opened Discovery
  import Record = PublisherInfo
  import Laws = PublisherInfoLaws

  // ---------- Runs ----------

  ghost predicate Leads(s: System, steps: seq<SystemStep>, t: System) {
    Proceeds(s, steps) && Finally(s, steps) == t
  }

  lemma Nowhere(s: System)
    ensures Leads(s, [], s)
  {
  }

  lemma One(s: System, step: SystemStep)
    requires Possible(s, step)
    ensures Leads(s, [step], Succ(s, step))
  {
    hide Possible, Succ;
    var t, none := Succ(s, step), [step][1..];
    assert none == [] && Proceeds(t, none) && Finally(t, none) == t;
  }

  lemma {:induction false} Then(s: System, first: seq<SystemStep>, t: System, second: seq<SystemStep>, u: System)
    requires Leads(s, first, t) && Leads(t, second, u)
    ensures Leads(s, first + second, u)
    decreases |first|
  {
    hide Possible, Succ;
    var all := first + second;
    if first == [] {
      assert all == second;
    } else {
      assert all[0] == first[0] && all[1..] == first[1..] + second;
      Then(Succ(s, first[0]), first[1..], t, second, u);
    }
  }

  lemma Led(s: System, steps: seq<SystemStep>, t: System)
    requires Leads(s, steps, t)
    ensures Proceeds(s, steps) && Finally(s, steps) == t
  {
  }

  // One step more, and the invariant still holds.
  lemma Further(s: System, steps: seq<SystemStep>, t: System, step: SystemStep)
    requires Leads(s, steps, t) && SystemInv(t) && Possible(t, step)
    ensures Leads(s, steps + [step], Succ(t, step)) && SystemInv(Succ(t, step))
  {
    hide *;
    One(t, step);
    Then(s, steps, t, [step], Succ(t, step));
    SuccInv(t, step);
  }

  // An action of a publisher that a subscriber does not hear.
  predicate Undisturbed(sub: Subscriber, a: Action) {
    !sub.mode.Scanning? && (sub.watch.None? || (!a.CloseFile? && !a.RemoveFile?))
  }

  lemma Acts(s: System, gen: Generation, a: Action)
    requires SystemInv(s) && Undisturbed(s.sub, a) && gen in s.world.pubs && CanAct(s.world.pubs[gen], s.world.fds, a)
    ensures Possible(s, Outside(Act(gen, a)))
    ensures
      var p, w' := s.world.pubs[gen], Succ(s, Outside(Act(gen, a))).world;
      && w'.pubs == s.world.pubs[gen := Advanced(p, s.world.fds, s.world.dirs, a)]
      && w'.fds == FdsAfter(p, gen, s.world.fds, a)
      && w'.memory == s.world.memory[gen := BufferAfter(p.phase, Packed(p), BufferOf(s.world.memory, gen), a)]
      && w'.files == FilesAfter(p, gen, s.world.files, s.world.dirs, a)
      && (!a.InitTopicPath? ==> w'.dirs == s.world.dirs)
      && (a.InitTopicPath? ==> w'.dirs.Keys == s.world.dirs.Keys + {p.topic})
    ensures Succ(s, Outside(Act(gen, a))).sub == s.sub
  {
    hide Advanced, FdsAfter, FilesAfter, BufferAfter, CanAct, Packed, SystemInv;
    ActEffect(s.world, gen, a);
  }

  // A run goes on with an action.
  lemma Go(s: System, steps: seq<SystemStep>, t: System, gen: Generation, a: Action)
      returns (more: seq<SystemStep>, u: System)
    requires Leads(s, steps, t) && SystemInv(t) && Undisturbed(t.sub, a)
    requires gen in t.world.pubs && CanAct(t.world.pubs[gen], t.world.fds, a)
    ensures Leads(s, more, u) && SystemInv(u) && u.sub == t.sub
    ensures
      var p := t.world.pubs[gen];
      && u.world.pubs == t.world.pubs[gen := Advanced(p, t.world.fds, t.world.dirs, a)]
      && u.world.fds == FdsAfter(p, gen, t.world.fds, a)
      && u.world.memory == t.world.memory[gen := BufferAfter(p.phase, Packed(p), BufferOf(t.world.memory, gen), a)]
      && u.world.files == FilesAfter(p, gen, t.world.files, t.world.dirs, a)
      && (!a.InitTopicPath? ==> u.world.dirs == t.world.dirs)
      && (a.InitTopicPath? ==> u.world.dirs.Keys == t.world.dirs.Keys + {p.topic})
  {
    hide *;
    Acts(t, gen, a);
    Further(s, steps, t, Outside(Act(gen, a)));
    more, u := steps + [Outside(Act(gen, a))], Succ(t, Outside(Act(gen, a)));
  }

  // A run goes on with an action that a watching subscriber hears of.
  lemma GoHeard(s: System, steps: seq<SystemStep>, t: System, gen: Generation, a: Action)
      returns (more: seq<SystemStep>, u: System)
    requires Leads(s, steps, t) && SystemInv(t) && t.sub.mode.Looping? && t.sub.Watchful()
    requires gen in t.world.pubs && CanAct(t.world.pubs[gen], t.world.fds, a) && (a.CloseFile? || a.RemoveFile?)
    requires t.world.pubs[gen].topic == t.sub.topic && t.world.pubs[gen].advertised
    requires t.world.pubs[gen].FilePath() in t.world.files
    ensures Leads(s, more, u) && SystemInv(u)
    ensures
      var p := t.world.pubs[gen];
      && u.sub ==
         t.sub.(queue := Enqueue(t.sub.queue, if a.CloseFile? then CloseWrite(p.Name()) else Delete(p.Name())))
      && u.world.pubs == t.world.pubs[gen := Advanced(p, t.world.fds, t.world.dirs, a)]
      && u.world.fds == t.world.fds && u.world.dirs == t.world.dirs
      && u.world.files == FilesAfter(p, gen, t.world.files, t.world.dirs, a)
  {
    hide *;
    WatchIsCurrent(t);
    Heard(t, gen, a);
    Further(s, steps, t, Outside(Act(gen, a)));
    more, u := steps + [Outside(Act(gen, a))], Succ(t, Outside(Act(gen, a)));
  }

  lemma Heard(s: System, gen: Generation, a: Action)
    requires s.sub.mode.Looping? && s.sub.watch.Some? && Current(s.world, s.sub)
    requires gen in s.world.pubs && CanAct(s.world.pubs[gen], s.world.fds, a) && (a.CloseFile? || a.RemoveFile?)
    requires s.world.pubs[gen].topic == s.sub.topic && s.world.pubs[gen].advertised
    requires s.world.pubs[gen].FilePath() in s.world.files
    ensures Possible(s, Outside(Act(gen, a)))
    ensures
      var p, u := s.world.pubs[gen], Succ(s, Outside(Act(gen, a)));
      && u.sub ==
         s.sub.(queue := Enqueue(s.sub.queue, if a.CloseFile? then CloseWrite(p.Name()) else Delete(p.Name())))
      && u.world.pubs == s.world.pubs[gen := Advanced(p, s.world.fds, s.world.dirs, a)]
      && u.world.fds == s.world.fds && u.world.dirs == s.world.dirs
      && u.world.files == FilesAfter(p, gen, s.world.files, s.world.dirs, a)
  {
    hide Advanced, FilesAfter, BufferAfter, Packed, Next;
    ActEffect(s.world, gen, a);
  }

  lemma WatchIsCurrent(s: System)
    requires SystemInv(s) && s.sub.mode.Looping? && s.sub.Watchful()
    ensures s.sub.watch.Some? && Current(s.world, s.sub)
  {
    hide Inv, Current, Announced, Attached, Covered, Scannable;
  }

  // ---------- Closing and removing what is there ----------

  // Nothing that happens outside reaches the subscriber.
  predicate Unheard(sub: Subscriber) {
    sub.watch.None? && !sub.mode.Scanning?
  }

  // The files of a topic that are not closed yet.
  function Unclosed(w: World, topic: string): (s: set<Handle>)
    ensures forall n :: n in s <==> Present(w, topic, n) && !Closed(w, topic, n)
  {
    set n | n in Names(w, topic) && !Closed(w, topic, n)
  }

  // The publisher that has a file can close it if it has not yet, and remove it if it has.
  lemma OwnerOf(w: World, topic: string, n: Handle)
    requires Inv(w) && Present(w, topic, n)
    ensures
      var g := GenerationOf(w, topic, n);
      && g in w.pubs && w.pubs[g].FilePath() == Path(topic, n) && w.pubs[g].advertised
      && CanAct(w.pubs[g], w.fds, if Closed(w, topic, n) then RemoveFile else CloseFile)
  {
    hide PartsHeld, RecordHeld, Packed;
    assert PublisherInv(w, GenerationOf(w, topic, n));
  }

  lemma CloseOne(s: System, n: Handle) returns (steps: seq<SystemStep>, t: System)
    requires SystemInv(s) && Unheard(s.sub) && n in Unclosed(s.world, s.sub.topic)
    ensures Leads(s, steps, t) && SystemInv(t) && t.sub == s.sub
    ensures t.world.files == s.world.files[Path(s.sub.topic, n) := File(GenerationOf(s.world, s.sub.topic, n), true)]
    ensures t.world.fds == s.world.fds && t.world.pubs.Keys == s.world.pubs.Keys
  {
    hide Leads, SystemInv, Packed;
    OwnerHere(s, n);
    Nowhere(s);
    steps, t := Go(s, [], s, GenerationOf(s.world, s.sub.topic, n), CloseFile);
  }

  lemma RemoveOne(s: System, n: Handle) returns (steps: seq<SystemStep>, t: System)
    requires SystemInv(s) && Unheard(s.sub) && Closed(s.world, s.sub.topic, n)
    ensures Leads(s, steps, t) && SystemInv(t) && t.sub == s.sub
    ensures t.world.files == s.world.files - {Path(s.sub.topic, n)}
  {
    hide Leads, SystemInv, Packed;
    OwnerHere(s, n);
    Nowhere(s);
    steps, t := Go(s, [], s, GenerationOf(s.world, s.sub.topic, n), RemoveFile);
  }

  lemma OwnerHere(s: System, n: Handle)
    requires SystemInv(s) && Present(s.world, s.sub.topic, n)
    ensures
      var w, g := s.world, GenerationOf(s.world, s.sub.topic, n);
      && g in w.pubs && w.pubs[g].FilePath() == Path(s.sub.topic, n) && w.pubs[g].advertised
      && CanAct(w.pubs[g], w.fds, if Closed(w, s.sub.topic, n) then RemoveFile else CloseFile)
  {
    hide Inv, CanAct;
    OwnerOf(s.world, s.sub.topic, n);
  }

  // Every publisher of the topic that is creating its file closes it.
  lemma {:induction false} CloseAll(s: System) returns (steps: seq<SystemStep>, t: System)
    requires SystemInv(s) && Unheard(s.sub)
    ensures Leads(s, steps, t) && SystemInv(t) && t.sub == s.sub
    ensures Unclosed(t.world, s.sub.topic) == {} && Names(t.world, s.sub.topic) == Names(s.world, s.sub.topic)
    ensures t.world.fds == s.world.fds && t.world.pubs.Keys == s.world.pubs.Keys
    decreases |Unclosed(s.world, s.sub.topic)|
  {
    hide Leads, Inv, SubInv, SystemInv;
    if n :| n in Unclosed(s.world, s.sub.topic) {
      var first, u := CloseOne(s, n);
      assert Unclosed(u.world, s.sub.topic) == Unclosed(s.world, s.sub.topic) - {n};
      assert Names(u.world, s.sub.topic) == Names(s.world, s.sub.topic);
      var second;
      second, t := CloseAll(u);
      Then(s, first, u, second, t);
      steps := first + second;
    } else {
      Nowhere(s);
      steps, t := [], s;
    }
  }

  // Every publisher of the topic removes its file, once all are closed.
  lemma {:induction false} RemoveAll(s: System) returns (steps: seq<SystemStep>, t: System)
    requires SystemInv(s) && Unheard(s.sub) && Unclosed(s.world, s.sub.topic) == {}
    ensures Leads(s, steps, t) && SystemInv(t) && t.sub == s.sub
    ensures Names(t.world, s.sub.topic) == {}
    decreases |Names(s.world, s.sub.topic)|
  {
    hide Leads, Inv, SubInv, SystemInv;
    if n :| n in Names(s.world, s.sub.topic) {
      assert n !in Unclosed(s.world, s.sub.topic);
      var first, u := RemoveOne(s, n);
      assert Names(u.world, s.sub.topic) == Names(s.world, s.sub.topic) - {n};
      forall m ensures m !in Unclosed(u.world, s.sub.topic) {
        assert m !in Unclosed(s.world, s.sub.topic);
      }
      var second;
      second, t := RemoveAll(u);
      Then(s, first, u, second, t);
      steps := first + second;
    } else {
      Nowhere(s);
      steps, t := [], s;
    }
  }

  // ---------- One publisher more ----------

  // The descriptors of a publisher with a queue of one buffer.
  datatype Trio = Trio(queueFd: Int31, eventFd: Int31, infoFd: Int31)

  predicate Free(fds: map<Handle, Object>, pid: Int31, trio: Trio) {
    && trio.queueFd != trio.eventFd && trio.eventFd != trio.infoFd && trio.infoFd != trio.queueFd
    && Handle(pid, trio.queueFd) !in fds && Handle(pid, trio.eventFd) !in fds && Handle(pid, trio.infoFd) !in fds
  }

  // Some process can still open what a publisher needs.
  ghost predicate Spare(fds: map<Handle, Object>) {
    exists pid: Int31, trio: Trio :: Free(fds, pid, trio)
  }

  function Newcomer(pid: Int31, topic: string, phase: Phase): Publisher {
    Publisher(pid, topic, 1, 1, [], 0, 0, false, phase)
  }

  function Equipped(pid: Int31, topic: string, trio: Trio, advertised: bool, phase: Phase): Publisher {
    Publisher(pid, topic, 1, 1, [trio.queueFd], trio.eventFd, trio.infoFd, advertised, phase)
  }

  lemma SmallRecord(p: Publisher)
    requires p.queueSize == 1 && |p.queueFds| == 1
    ensures |Packed(p)| < 0x8000_0000
  {
    hide Record.PackWith, Record.Stored;
    var rec := InfoOf(p);
    Laws.PackSize(rec, Record.Stored(rec));
    assert Laws.Scalars(rec, 1) == 1;
    assert Laws.Scalars(rec, 2) == 2;
    assert Laws.Scalars(rec, 3) == 4;
    assert Laws.Scalars(rec, 4) == 5;
  }

  lemma Appears(s: System, gen: Generation, pid: Int31) returns (steps: seq<SystemStep>, t: System)
    requires SystemInv(s) && !s.sub.mode.Scanning? && gen !in s.world.pubs
    ensures Leads(s, steps, t) && SystemInv(t) && t.sub == s.sub
    ensures t.world == s.world.(pubs := s.world.pubs[gen := Newcomer(pid, s.sub.topic, Starting)])
  {
    hide Leads, SystemInv, Packed;
    Nowhere(s);
    var step := Outside(Spawn(gen, pid, s.sub.topic, 1, 1));
    Further(s, [], s, step);
    steps, t := [] + [step], Succ(s, step);
  }

  // The new publisher has its directory and its queue.
  lemma QueueMade(s: System, gen: Generation, pid: Int31, trio: Trio) returns (steps: seq<SystemStep>, t: System)
    requires SystemInv(s) && !s.sub.mode.Scanning? && gen !in s.world.pubs && Free(s.world.fds, pid, trio)
    ensures Leads(s, steps, t) && SystemInv(t) && t.sub == s.sub && t.world.files == s.world.files
    ensures t.world.dirs.Keys == s.world.dirs.Keys + {s.sub.topic}
    ensures gen in t.world.pubs && t.world.pubs - {gen} == s.world.pubs - {gen}
    ensures t.world.pubs[gen] == Newcomer(pid, s.sub.topic, Allocating).(queueFds := [trio.queueFd])
    ensures t.world.fds == s.world.fds[Handle(pid, trio.queueFd) := QueueBuffer(gen, 0)]
  {
    hide Leads, SystemInv, Packed;
    steps, t := Appears(s, gen, pid);
    steps, t := Go(s, steps, t, gen, InitTopicPath);
    steps, t := Go(s, steps, t, gen, AllocateBuffer(trio.queueFd));
    assert t.world.pubs[gen].queueFds == [trio.queueFd];
  }

  // It has all its parts; its info buffer is still zero.
  lemma PartsMade(s: System, gen: Generation, pid: Int31, trio: Trio) returns (steps: seq<SystemStep>, t: System)
    requires SystemInv(s) && !s.sub.mode.Scanning? && gen !in s.world.pubs && Free(s.world.fds, pid, trio)
    ensures Leads(s, steps, t) && SystemInv(t) && t.sub == s.sub && t.world.files == s.world.files
    ensures t.world.dirs.Keys == s.world.dirs.Keys + {s.sub.topic}
    ensures gen in t.world.pubs && t.world.pubs - {gen} == s.world.pubs - {gen}
    ensures t.world.pubs[gen] == Equipped(pid, s.sub.topic, trio, false, Writing(0))
    ensures
      t.world.fds == s.world.fds[Handle(pid, trio.queueFd) := QueueBuffer(gen, 0)]
                       [Handle(pid, trio.eventFd) := EventCounter(gen)][Handle(pid, trio.infoFd) := InfoBuffer(gen)]
    ensures BufferOf(t.world.memory, gen) == Zeros(|BufferOf(t.world.memory, gen)|)
  {
    hide Leads, SystemInv, Packed;
    steps, t := QueueMade(s, gen, pid, trio);
    steps, t := Go(s, steps, t, gen, CreateEvent(trio.eventFd));
    SmallRecord(t.world.pubs[gen]);
    steps, t := Go(s, steps, t, gen, AllocateInfo(trio.infoFd, |Packed(t.world.pubs[gen])|));
  }

  // It fills its record and creates its file.
  lemma FileMade(s: System, gen: Generation, pid: Int31, trio: Trio) returns (steps: seq<SystemStep>, t: System)
    requires SystemInv(s) && !s.sub.mode.Scanning? && s.sub.topic in s.world.dirs && gen in s.world.pubs
    requires s.world.pubs[gen] == Equipped(pid, s.sub.topic, trio, false, Writing(0))
    ensures Leads(s, steps, t) && SystemInv(t) && t.sub == s.sub
    ensures t.world.files == s.world.files[Path(s.sub.topic, Handle(pid, trio.infoFd)) := File(gen, false)]
    ensures t.world.dirs == s.world.dirs && t.world.fds == s.world.fds && gen in t.world.pubs
    ensures t.world.pubs == s.world.pubs[gen := Equipped(pid, s.sub.topic, trio, true, Creating)]
  {
    hide Leads, SystemInv, Packed;
    Nowhere(s);
    steps, t := Go(s, [], s, gen, WriteInfo(|Packed(s.world.pubs[gen])|));
    SameRecord(s.world.pubs[gen], t.world.pubs[gen]);
    NoFile(t, gen);
    steps, t := Go(s, steps, t, gen, CreateFile);
  }

  lemma NoFile(s: System, gen: Generation)
    requires SystemInv(s) && gen in s.world.pubs && s.world.pubs[gen].phase.Writing?
    ensures s.world.pubs[gen].FilePath() !in s.world.files
  {
    hide Inv;
    NoFileYet(s.world, gen);
  }

  lemma {:induction false} Larger(gens: set<Generation>) returns (gen: Generation)
    ensures forall g :: g in gens ==> g < gen
    decreases |gens|
  {
    if g :| g in gens {
      var rest := Larger(gens - {g});
      gen := if rest > g then rest else g + 1;
      assert forall other | other in gens :: other == g || other in gens - {g};
    } else {
      gen := 0;
    }
  }

  // One publisher more, with a finished file.
  lemma Joins(s: System, pid: Int31, trio: Trio) returns (steps: seq<SystemStep>, t: System, gen: Generation)
    requires SystemInv(s) && Unheard(s.sub) && Free(s.world.fds, pid, trio)
    ensures Leads(s, steps, t) && SystemInv(t) && t.sub == s.sub
    ensures t.world.files == s.world.files[Path(s.sub.topic, Handle(pid, trio.infoFd)) := File(gen, true)]
    ensures s.sub.topic in t.world.dirs
    ensures gen in t.world.pubs && t.world.pubs[gen] == Equipped(pid, s.sub.topic, trio, true, Live)
  {
    hide *;
    gen := Larger(s.world.pubs.Keys);
    NotScanning(s.sub);
    var first, u := PartsMade(s, gen, pid, trio);
    var second, v := FileMade(u, gen, pid, trio);
    Then(s, first, u, second, v);
    steps, t := FileClosed(s, first + second, v, gen, pid, trio);
    var path := Path(s.sub.topic, Handle(pid, trio.infoFd));
    assert s.world.files[path := File(gen, false)][path := File(gen, true)] == s.world.files[path := File(gen, true)];
  }

  lemma NotScanning(sub: Subscriber)
    requires Unheard(sub)
    ensures !sub.mode.Scanning?
  {
  }

  lemma FileClosed(s: System, steps: seq<SystemStep>, t: System, gen: Generation, pid: Int31, trio: Trio)
      returns (more: seq<SystemStep>, u: System)
    requires Leads(s, steps, t) && SystemInv(t) && Unheard(t.sub) && gen in t.world.pubs
    requires t.world.pubs[gen] == Equipped(pid, t.sub.topic, trio, true, Creating)
    requires Path(t.sub.topic, Handle(pid, trio.infoFd)) in t.world.files
    requires t.world.files[Path(t.sub.topic, Handle(pid, trio.infoFd))] == File(gen, false)
    ensures Leads(s, more, u) && SystemInv(u) && u.sub == t.sub && u.world.dirs == t.world.dirs
    ensures u.world.files == t.world.files[Path(t.sub.topic, Handle(pid, trio.infoFd)) := File(gen, true)]
    ensures gen in u.world.pubs && u.world.pubs[gen] == Equipped(pid, t.sub.topic, trio, true, Live)
  {
    hide Leads, SystemInv, Packed;
    more, u := Go(s, steps, t, gen, CloseFile);
  }

  // What a finished file adds to a directory.
  lemma FileAdded(w: World, w': World, topic: string, n: Handle, gen: Generation)
    requires w'.files == w.files[Path(topic, n) := File(gen, true)]
    ensures Unclosed(w, topic) == {} ==> Unclosed(w', topic) == {}
    ensures Names(w', topic) == Names(w, topic) + {n} && Closed(w', topic, n) && GenerationOf(w', topic, n) == gen
  {
    forall m ensures m in Unclosed(w', topic) ==> m in Unclosed(w, topic) {
    }
  }
}
