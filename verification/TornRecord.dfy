// How a watched subscriber can come to look at a record that is not there yet: the name it
// tries is stale, and its descriptor has been handed to the next publisher's info buffer.
module TornRecord {
  import opened Wrappers
  import opened Bytes
  import opened FlatBuffer
  import opened PublisherWorld
  import opened Discovery
  import opened DiscoveryLaws
  import opened Scenarios
  import Record = PublisherInfo
  import Unwatched

  // ---------- A buffer nobody has written to ----------

  lemma {:induction false} ZerosAreZero(n: nat)
    ensures FromLittleEndian(Zeros(n)) == 0
    decreases n
  {
    if n > 0 {
      assert Zeros(n)[1..] == Zeros(n - 1);
      ZerosAreZero(n - 1);
    }
  }

  lemma ZeroLoads(n: nat, i: nat, k: nat)
    requires i + k <= n
    ensures Load(Zeros(n), i, k) == 0
  {
    assert Zeros(n)[i..i + k] == Zeros(k);
    ZerosAreZero(k);
  }

  // A record of zeros has no vectors.
  lemma ZerosAreIllegible(n: nat)
    ensures !Legible(Zeros(n))
  {
    hide Load, Zeros;
    if n >= 4 {
      ZeroLoads(n, 0, 4);
      ZeroLoads(n, 0, 2);
    }
  }

  // ---------- The run ----------

  const TOPIC: string := Unwatched.TOPIC

  // A subscriber in its loop, with a watch, attached to nothing.
  lemma Watches() returns (s0: System, steps: seq<SystemStep>, s: System)
    ensures Begins(s0) && Leads(s0, steps, s) && SystemInv(s)
    ensures s.world == Unwatched.MADE && s.sub == Subscriber(TOPIC, Looping(true), Some(0), [], [], None)
  {
    hide Leads, SystemInv, Proceeds, Finally;
    s0, s := System(Unwatched.EMPTY, Unwatched.Waiter(Waiting)), System(Unwatched.MADE, Unwatched.Waiter(HasDirectory));
    steps := Unwatched.DirectoryFound();
    BeginInv(s0);
    Led(s0, steps, s);
    SystemRunInv(s0, steps);
    assert Names(Unwatched.MADE, TOPIC) == {};
    Further(s0, steps, s, AddWatch);
    steps, s := steps + [AddWatch], Succ(s, AddWatch);
    Further(s0, steps, s, OpenDirectory);
    steps, s := steps + [OpenDirectory], Succ(s, OpenDirectory);
    Further(s0, steps, s, EndScan);
    steps, s := steps + [EndScan], Succ(s, EndScan);
    Further(s0, steps, s, LookAtRecord(true));
    steps, s := steps + [LookAtRecord(true)], Succ(s, LookAtRecord(true));
  }

  // A publisher comes,
  lemma Comes(s: System, trio: Trio) returns (steps: seq<SystemStep>, t: System)
    requires SystemInv(s) && s.sub.mode.Looping? && s.sub.Watchful() && s.sub.queue == [] && s.sub.topic == TOPIC
    requires 1 !in s.world.pubs && Free(s.world.fds, 11, trio)
    ensures Leads(s, steps, t) && SystemInv(t)
    ensures t.sub == s.sub.(queue := [CloseWrite(Handle(11, trio.infoFd))])
    ensures TOPIC in t.world.dirs && t.world.pubs.Keys == s.world.pubs.Keys + {1}
    ensures t.world.pubs[1] == Equipped(11, TOPIC, trio, true, Live)
    ensures Path(TOPIC, Handle(11, trio.infoFd)) in t.world.files
    ensures
      t.world.fds == s.world.fds[Handle(11, trio.queueFd) := QueueBuffer(1, 0)]
                       [Handle(11, trio.eventFd) := EventCounter(1)][Handle(11, trio.infoFd) := InfoBuffer(1)]
  {
    hide Leads, SystemInv, Packed;
    var first, u := PartsMade(s, 1, 11, trio);
    var second, v := FileMade(u, 1, 11, trio);
    Then(s, first, u, second, v);
    steps, t := GoHeard(s, first + second, v, 1, CloseFile);
    assert t.world.pubs.Keys == (u.world.pubs - {1}).Keys + {1};
  }

  // and goes; its info buffer's descriptor is free again.
  lemma Goes(s: System, trio: Trio) returns (steps: seq<SystemStep>, t: System)
    requires SystemInv(s) && s.sub.mode.Looping? && s.sub.Watchful() && s.sub.topic == TOPIC && 1 in s.world.pubs
    requires s.sub.queue == [CloseWrite(Handle(11, trio.infoFd))] && trio.infoFd > 0
    requires s.world.pubs[1] == Equipped(11, TOPIC, trio, true, Live)
    requires Path(TOPIC, Handle(11, trio.infoFd)) in s.world.files
    ensures Leads(s, steps, t) && SystemInv(t)
    ensures t.sub == s.sub.(queue := [CloseWrite(Handle(11, trio.infoFd)), Delete(Handle(11, trio.infoFd))])
    ensures t.world.dirs == s.world.dirs && t.world.pubs.Keys == s.world.pubs.Keys
    ensures t.world.fds == s.world.fds - {Handle(11, trio.infoFd)}
  {
    hide Leads, SystemInv, Packed;
    Nowhere(s);
    steps, t := GoHeard(s, [], s, 1, RemoveFile);
    steps, t := Go(s, steps, t, 1, ResetInfo);
  }

  lemma ComesAndGoes(s: System) returns (steps: seq<SystemStep>, t: System)
    requires SystemInv(s) && s.world == Unwatched.MADE
    requires s.sub == Subscriber(TOPIC, Looping(true), Some(0), [], [], None)
    ensures Leads(s, steps, t) && SystemInv(t) && 2 !in t.world.pubs && Free(t.world.fds, 11, Trio(6, 7, 5))
    ensures t.sub == s.sub.(queue := [CloseWrite(Handle(11, 5)), Delete(Handle(11, 5))])
  {
    hide Leads, SystemInv;
    var trio := Trio(3, 4, 5);
    var first, u := Comes(s, trio);
    var second;
    second, t := Goes(u, trio);
    Then(s, first, u, second, t);
    steps := first + second;
  }

  // The subscriber, in step with both events, tries the stale name when that descriptor is
  // the next publisher's info buffer, attaches to it, and ends when it looks at it.
  lemma TornRecord() returns (s0: System, steps: seq<SystemStep>, step: SystemStep)
    ensures Begins(s0) && Proceeds(s0, steps) && Possible(Finally(s0, steps), step)
    ensures
      var s := Finally(s0, steps);
      && s.sub.mode.Looping? && s.sub.Watchful() && s.sub.attached.Some? && s.sub.attached.value.target == InfoBuffer(2)
      && 2 in s.world.pubs && s.world.pubs[2].phase == Writing(0)
      && step.LookAtRecord? && Succ(s, step).sub.mode.Crashed?
  {
    hide Begins, Leads, SystemInv, Proceeds, Finally, Legible;
    var first, s;
    s0, first, s := Watches();
    var second, t := ComesAndGoes(s);
    Then(s0, first, s, second, t);
    var third, u := PartsMade(t, 2, 11, Trio(6, 7, 5));
    Then(s0, first + second, t, third, u);
    steps := first + second + third;
    Further(s0, steps, u, ReadEvents(1));
    steps, u := steps + [ReadEvents(1)], Succ(u, ReadEvents(1));
    Further(s0, steps, u, NextEvent(false));
    steps, u := steps + [NextEvent(false)], Succ(u, NextEvent(false));
    step := LookAtRecord(false);
    ZerosAreIllegible(|BufferOf(u.world.memory, 2)|);
    Led(s0, steps, u);
  }
}
