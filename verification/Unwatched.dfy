// A subscriber whose watch failed: what it can still agree with, and how it comes about.
module Unwatched {
  import opened Wrappers
  import opened PublisherWorld
  import opened Discovery
  import opened DiscoveryLaws
  import opened Scenarios

  // In its loop, without a watch and with nothing left to read.
  predicate Deaf(sub: Subscriber) {
    sub.mode.Looping? && sub.watch.None? && sub.queue == [] && sub.batch == []
  }

  // A publisher whose record is complete, for ever after, and can be looked at.
  predicate Lasting(w: World, g: Generation) {
    g in w.pubs && w.pubs[g].Filled() && w.pubs[g].queueSize > 0
  }

  lemma StaysLasting(w: World, s: Step, g: Generation)
    requires Enabled(w, s) && Lasting(w, g)
    ensures Lasting(Next(w, s), g)
  {
    hide Packed, FdsAfter, FilesAfter, BufferAfter;
  }

  // What the subscriber is attached to, if it is, it can look at again and again.
  predicate Settled(s: System) {
    s.sub.attached.Some? ==>
      s.sub.attached.value.target.InfoBuffer? && Lasting(s.world, s.sub.attached.value.target.gen)
  }

  // A subscriber that came into its loop without a watch stays there, and whatever it is
  // attached to or not attached to it stays that way, whatever happens around it, as long as
  // it can look at it.
  lemma {:induction false} UnwatchedIsDeaf(s: System, steps: seq<SystemStep>)
    requires SystemInv(s) && Deaf(s.sub) && Settled(s) && Proceeds(s, steps)
    ensures
      var t := Finally(s, steps);
      && SystemInv(t) && Deaf(t.sub) && Settled(t)
      && t.sub.attached == s.sub.attached && t.sub.topic == s.sub.topic
    decreases |steps|
  {
    hide SystemInv, Lasting, Possible, Succ, Deaf, Settled;
    if steps != [] {
      SuccInv(s, steps[0]);
      DeafStep(s, steps[0]);
      UnwatchedIsDeaf(Succ(s, steps[0]), steps[1..]);
    }
  }

  lemma DeafStep(s: System, step: SystemStep)
    requires SystemInv(s) && Deaf(s.sub) && Settled(s) && Possible(s, step)
    ensures
      var t := Succ(s, step);
      Deaf(t.sub) && Settled(t) && t.sub.attached == s.sub.attached && t.sub.topic == s.sub.topic
  {
    hide Inv, SubInv, Next, Enabled, NoticeOf, Legible, Lasting;
    if s.sub.attached.Some? {
      var g := s.sub.attached.value.target.gen;
      if step.Outside? {
        StaysLasting(s.world, step.step, g);
      }
      CanLook(s.world, g);
    }
  }

  lemma CanLook(w: World, g: Generation)
    requires Inv(w) && Lasting(w, g)
    ensures Legible(BufferOf(w.memory, g))
  {
    hide Inv, Legible;
    LegibleIffQueued(w, g);
  }

  // ---------- The exact condition ----------

  // Attached exactly if somebody advertises.
  ghost predicate Agrees(s: System) {
    s.sub.attached.Some? <==> exists n :: Present(s.world, s.sub.topic, n)
  }

  // A deaf subscriber can always be brought to disagree.
  lemma CanDisagree(s: System) returns (steps: seq<SystemStep>, t: System)
    requires SystemInv(s) && Deaf(s.sub) && Spare(s.world.fds)
    ensures Leads(s, steps, t) && t.sub == s.sub && Quiet(t) && !Agrees(t)
  {
    hide Leads, SystemInv;
    var first, u := CloseAll(s);
    var second;
    if s.sub.attached.Some? {
      second, t := RemoveAll(u);
      forall n ensures !Present(t.world, s.sub.topic, n) {
        assert n !in Names(t.world, s.sub.topic);
      }
    } else {
      var pid: Int31, trio: Trio :| Free(s.world.fds, pid, trio);
      var gen;
      second, t, gen := Joins(u, pid, trio);
      FileAdded(u.world, t.world, s.sub.topic, Handle(pid, trio.infoFd), gen);
      assert Present(t.world, s.sub.topic, Handle(pid, trio.infoFd));
      forall n | Present(t.world, s.sub.topic, n) ensures Closed(t.world, s.sub.topic, n) {
        assert n !in Unclosed(t.world, s.sub.topic);
      }
    }
    Then(s, first, u, second, t);
    steps := first + second;
  }

  // A subscriber in its loop is sure to agree with the directory whenever all is quiet
  // again, exactly if it has a watch.
  lemma AgreesIffWatched(s0: System, steps: seq<SystemStep>)
    requires Begins(s0) && Proceeds(s0, steps) && Finally(s0, steps).sub.mode.Looping?
    requires Spare(Finally(s0, steps).world.fds)
    ensures
      var s := Finally(s0, steps);
      s.sub.watch.Some? <==>
        forall more | Proceeds(s, more) && Finally(s, more).sub.mode.Looping? &&
                      Finally(s, more).sub.watch == s.sub.watch && Quiet(Finally(s, more)) ::
          Agrees(Finally(s, more))
  {
    hide Inv, Spare, Quiet, Agrees, Sound;
    BeginInv(s0);
    SystemRunInv(s0, steps);
    var s := Finally(s0, steps);
    if s.sub.watch.Some? {
      forall more | Proceeds(s, more) && Finally(s, more).sub.mode.Looping? &&
                    Finally(s, more).sub.watch == s.sub.watch && Quiet(Finally(s, more))
        ensures Agrees(Finally(s, more))
      {
        AgreesLater(s0, steps, s, more);
      }
    } else {
      Disagrees(s);
    }
  }

  lemma AgreesLater(s0: System, steps: seq<SystemStep>, s: System, more: seq<SystemStep>)
    requires Begins(s0) && Leads(s0, steps, s) && Proceeds(s, more)
    requires Finally(s, more).sub.mode.Looping? && Finally(s, more).sub.watch.Some? && Quiet(Finally(s, more))
    ensures Agrees(Finally(s, more))
  {
    hide Begins, Proceeds, Finally, Quiet;
    Then(s0, steps, s, more, Finally(s, more));
    QuiescentAgreement(s0, steps + more);
  }

  lemma Disagrees(s: System)
    requires SystemInv(s) && Deaf(s.sub) && Spare(s.world.fds)
    ensures exists more ::
              && Proceeds(s, more) && Finally(s, more).sub.mode.Looping? && Finally(s, more).sub.watch == s.sub.watch
              && Quiet(Finally(s, more)) && !Agrees(Finally(s, more))
  {
    hide Proceeds, Finally, SystemInv, Quiet, Agrees;
    var more, t := CanDisagree(s);
    Led(s, more, t);
  }

  // ---------- How it comes about ----------

  const TOPIC: string := "camera"

  function Waiter(mode: Mode): Subscriber {
    Subscriber(TOPIC, mode, None, [], [], None)
  }

  lemma Three(s: System, steps: seq<SystemStep>, s1: System, s2: System, s3: System)
    requires |steps| == 3 && Possible(s, steps[0]) && s1 == Succ(s, steps[0])
    requires Possible(s1, steps[1]) && s2 == Succ(s1, steps[1]) && Possible(s2, steps[2]) && s3 == Succ(s2, steps[2])
    ensures Leads(s, steps, s3)
  {
    hide Possible, Succ;
    var last := steps[2..];
    assert Proceeds(s3, last[1..]) && Finally(s3, last[1..]) == s3;
    assert Proceeds(s2, last) && Finally(s2, last) == s3;
    assert steps[1..][0] == steps[1] && steps[1..][1..] == last;
    assert Proceeds(s1, steps[1..]) && Finally(s1, steps[1..]) == s3;
  }

  // Before anything happened; a publisher has made the directory; it is gone again.
  const EMPTY: World := World(map[], map[], map[], map[], map[], 0)
  const MADE: World :=
    World(map[0 := Newcomer(10, TOPIC, Allocating)], map[], map[0 := []], map[], map[TOPIC := 0], 1)
  const GONE: World := MADE.(dirs := map[])

  // The topic's directory disappears between the subscriber's look at it and its watch.
  lemma WatchMissed() returns (steps: seq<SystemStep>)
    ensures Leads(System(EMPTY, Waiter(Waiting)), steps, System(GONE, Waiter(Watching)))
  {
    hide *;
    var a := DirectoryFound();
    var b := DirectoryMissed();
    Then(System(EMPTY, Waiter(Waiting)), a, System(MADE, Waiter(HasDirectory)), b, System(GONE, Waiter(Watching)));
    steps := a + b;
  }

  lemma DirectoryFound() returns (steps: seq<SystemStep>)
    ensures Leads(System(EMPTY, Waiter(Waiting)), steps, System(MADE, Waiter(HasDirectory)))
  {
    hide Leads, Packed;
    steps := [Outside(Spawn(0, 10, TOPIC, 1, 1)), Outside(Act(0, InitTopicPath)), Stat];
    Three(System(EMPTY, Waiter(Waiting)), steps,
      System(EMPTY.(pubs := map[0 := Newcomer(10, TOPIC, Starting)]), Waiter(Waiting)),
      System(MADE, Waiter(Waiting)), System(MADE, Waiter(HasDirectory)));
  }

  lemma DirectoryMissed() returns (steps: seq<SystemStep>)
    ensures Leads(System(MADE, Waiter(HasDirectory)), steps, System(GONE, Waiter(Watching)))
  {
    hide Leads, Packed;
    var missed := Outside(RemoveDirectory(TOPIC));
    assert Succ(System(MADE, Waiter(HasDirectory)), missed) == System(GONE, Waiter(HasDirectory));
    One(System(MADE, Waiter(HasDirectory)), missed);
    One(System(GONE, Waiter(HasDirectory)), AddWatch);
    Then(System(MADE, Waiter(HasDirectory)), [missed], System(GONE, Waiter(HasDirectory)), [AddWatch],
      System(GONE, Waiter(Watching)));
    steps := [missed] + [AddWatch];
  }

  // Whoever came this far is in its loop after the scan, and deaf.
  lemma Scans(s: System) returns (steps: seq<SystemStep>, t: System)
    requires SystemInv(s) && s.sub == Waiter(Watching) && TOPIC in s.world.dirs && |Names(s.world, TOPIC)| <= 1
    ensures Leads(s, steps, t) && SystemInv(t) && t.world == s.world && Deaf(t.sub) && t.sub.topic == TOPIC
    ensures t.sub.attached.Some? <==> Names(s.world, TOPIC) != {}
    ensures t.sub.attached.Some? ==> UpToDate(s.world, TOPIC, t.sub.attached.value)
  {
    hide Leads, SystemInv, Inv;
    Nowhere(s);
    Further(s, [], s, OpenDirectory);
    steps, t := [] + [OpenDirectory], Succ(s, OpenDirectory);
    if n :| n in Names(s.world, TOPIC) {
      OnlyOne(Names(s.world, TOPIC), n);
      AttachHere(s, n);
      Further(s, steps, t, ReadEntry(n, true));
      steps, t := steps + [ReadEntry(n, true)], Succ(t, ReadEntry(n, true));
    }
    Further(s, steps, t, EndScan);
    steps, t := steps + [EndScan], Succ(t, EndScan);
  }

  lemma OnlyOne(names: set<Handle>, n: Handle)
    requires n in names && |names| <= 1
    ensures names - {n} == {}
  {
    assert |names - {n}| == |names| - 1;
  }

  lemma AttachHere(s: System, n: Handle)
    requires SystemInv(s) && Present(s.world, s.sub.topic, n)
    ensures
      Attach(s.world.fds, n, true) == Some(Attachment(n, InfoBuffer(GenerationOf(s.world, s.sub.topic, n))))
  {
    hide Inv;
    AttachPresent(s.world, s.sub.topic, n, true);
  }

  lemma Missed() returns (s0: System, steps: seq<SystemStep>, s: System)
    ensures Begins(s0) && Leads(s0, steps, s) && SystemInv(s)
    ensures s.sub == Waiter(Watching) && s.world.fds == map[] && s.world.files == map[]
  {
    hide Leads, SystemInv, Proceeds, Finally;
    s0, s := System(EMPTY, Waiter(Waiting)), System(GONE, Waiter(Watching));
    steps := WatchMissed();
    BeginInv(s0);
    Led(s0, steps, s);
    SystemRunInv(s0, steps);
  }

  // There is a run after which a finished file is in the directory, and the subscriber
  // never attaches to anything.
  lemma LostForever() returns (s0: System, steps: seq<SystemStep>)
    ensures Begins(s0) && Proceeds(s0, steps)
    ensures exists n :: Closed(Finally(s0, steps).world, Finally(s0, steps).sub.topic, n)
    ensures forall more | Proceeds(Finally(s0, steps), more) ::
              var t := Finally(Finally(s0, steps), more);
              t.sub.mode.Looping? && t.sub.attached.None?
  {
    hide Begins, Leads, SystemInv, Proceeds, Finally;
    var first, s;
    s0, first, s := Missed();
    var gen := Larger(s.world.pubs.Keys);
    var second, t := PartsMade(s, gen, 10, Trio(3, 4, 5));
    NoNames(t.world);
    var third, u := Scans(t);
    var fourth, v, g := Joins(u, 11, Trio(3, 4, 5));
    FileAdded(u.world, v.world, TOPIC, Handle(11, 5), g);
    Then(s0, first, s, second, t);
    Then(s0, first + second, t, third, u);
    Then(s0, first + second + third, u, fourth, v);
    steps := first + second + third + fourth;
    Led(s0, steps, v);
    DeafForever(v);
  }

  // There is one after which nobody advertises, and it stays attached for ever.
  lemma StaleForever() returns (s0: System, steps: seq<SystemStep>)
    ensures Begins(s0) && Proceeds(s0, steps)
    ensures forall n :: !Present(Finally(s0, steps).world, Finally(s0, steps).sub.topic, n)
    ensures forall more | Proceeds(Finally(s0, steps), more) ::
              var t := Finally(Finally(s0, steps), more);
              t.sub.mode.Looping? && t.sub.attached.Some? && t.sub.attached == Finally(s0, steps).sub.attached
  {
    hide Begins, Leads, SystemInv, Proceeds, Finally, Lasting;
    var first, s;
    s0, first, s := Missed();
    NoNames(s.world);
    var second, t, gen := Joins(s, 11, Trio(3, 4, 5));
    FileAdded(s.world, t.world, TOPIC, Handle(11, 5), gen);
    var third, u := Scans(t);
    IsLasting(u.world, gen, 11, Trio(3, 4, 5));
    assert u.sub.attached.value.target == InfoBuffer(gen);
    var fourth, v := RemoveAll(u);
    Led(u, fourth, v);
    UnwatchedIsDeaf(u, fourth);
    forall n ensures !Present(v.world, TOPIC, n) {
      assert n !in Names(v.world, TOPIC);
    }
    Then(s0, first, s, second, t);
    Then(s0, first + second, t, third, u);
    Then(s0, first + second + third, u, fourth, v);
    steps := first + second + third + fourth;
    Led(s0, steps, v);
    DeafForever(v);
  }

  lemma IsLasting(w: World, gen: Generation, pid: Int31, trio: Trio)
    requires gen in w.pubs && w.pubs[gen] == Equipped(pid, TOPIC, trio, true, Live)
    ensures Lasting(w, gen)
  {
  }

  lemma NoNames(w: World)
    requires w.files == map[]
    ensures Names(w, TOPIC) == {} && Unclosed(w, TOPIC) == {}
  {
  }

  lemma DeafForever(s: System)
    requires SystemInv(s) && Deaf(s.sub) && Settled(s)
    ensures forall more | Proceeds(s, more) ::
              Deaf(Finally(s, more).sub) && Finally(s, more).sub.attached == s.sub.attached
  {
    hide SystemInv, Deaf, Settled;
    forall more | Proceeds(s, more)
      ensures Deaf(Finally(s, more).sub) && Finally(s, more).sub.attached == s.sub.attached
    {
      UnwatchedIsDeaf(s, more);
    }
  }
}
