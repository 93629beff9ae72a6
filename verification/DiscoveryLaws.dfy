// What a subscriber can rely on in every reachable state, and when it ends.
module DiscoveryLaws {
  import opened Wrappers
  import opened Bytes
  import opened PublisherWorld
  import opened Discovery
  import PublisherLaws
  import Record = PublisherInfo
  import Laws = PublisherInfoLaws

  lemma BeginInv(s: System)
    requires Begins(s)
    ensures SystemInv(s)
  {
    InitialInv(s.world);
  }

  // In its loop and with its watch in place, a subscriber that is not about to start
  // over has not lost a publisher: while it is unattached, every finished info file is
  // still to be announced to it.  Nor is it silently stale: unless it is attached to
  // the publisher that advertises the name now, the end of that name is still to be
  // announced.
  lemma NoneLostNoneStale(s0: System, steps: seq<SystemStep>)
    requires Begins(s0) && Proceeds(s0, steps)
    ensures
      var s := Finally(s0, steps);
      s.sub.mode.Looping? && s.sub.watch.Some? ==>
        || s.sub.Pends(DeleteSelf)
        || match s.sub.attached
           case None => forall n :: Closed(s.world, s.sub.topic, n) ==> s.sub.Pends(CloseWrite(n))
           case Some(a) => UpToDate(s.world, s.sub.topic, a) || s.sub.Pends(Delete(a.name))
  {
    hide Inv;
    BeginInv(s0);
    SystemRunInv(s0, steps);
  }

  // A quiet system: nothing is pending, and no info file is between open and close.
  ghost predicate Quiet(s: System) {
    && s.sub.queue == [] && s.sub.batch == []
    && forall n :: Present(s.world, s.sub.topic, n) ==> Closed(s.world, s.sub.topic, n)
  }

  // When all is quiet, the subscriber is attached exactly if somebody advertises, it is
  // attached to the publisher whose file that is now, and through it to a complete
  // record of open descriptors.
  lemma QuiescentAgreement(s0: System, steps: seq<SystemStep>)
    requires Begins(s0) && Proceeds(s0, steps)
    requires Finally(s0, steps).sub.mode.Looping? && Finally(s0, steps).sub.watch.Some? && Quiet(Finally(s0, steps))
    ensures
      var s := Finally(s0, steps);
      s.sub.attached.Some? <==> exists n :: Present(s.world, s.sub.topic, n)
    ensures
      var s := Finally(s0, steps);
      s.sub.attached.Some? ==>
        var a := s.sub.attached.value;
        && UpToDate(s.world, s.sub.topic, a)
        && Record.Readable(BufferOf(s.world.memory, a.target.gen))
        && PublisherLaws.Usable(Record.UnPack(BufferOf(s.world.memory, a.target.gen)), a.target.gen, s.world.fds)
  {
    hide Inv, Record.Readable, Record.UnPack, PublisherLaws.Usable;
    BeginInv(s0);
    SystemRunInv(s0, steps);
    var s := Finally(s0, steps);
    if s.sub.attached.Some? {
      var a := s.sub.attached.value;
      assert Present(s.world, s.sub.topic, a.name);
      PublisherLaws.ReadyUnderInv(s.world, Path(s.sub.topic, a.name));
    }
  }

  // Whenever the subscriber attaches under a name whose file is there, it gets the info
  // buffer of the publisher that made the file, with a complete record.
  lemma AttachWhilePresent(s0: System, steps: seq<SystemStep>, step: SystemStep)
    requires Begins(s0) && Proceeds(s0, steps) && Possible(Finally(s0, steps), step)
    requires Finally(s0, steps).sub.attached.None? && Succ(Finally(s0, steps), step).sub.attached.Some?
    requires Present(Finally(s0, steps).world, s0.sub.topic, Succ(Finally(s0, steps), step).sub.attached.value.name)
    ensures
      var w, a := Finally(s0, steps).world, Succ(Finally(s0, steps), step).sub.attached.value;
      && UpToDate(w, s0.sub.topic, a)
      && Record.Readable(BufferOf(w.memory, a.target.gen))
      && PublisherLaws.Usable(Record.UnPack(BufferOf(w.memory, a.target.gen)), a.target.gen, w.fds)
  {
    hide Inv, Begins, SubInv, Record.Readable, Record.UnPack, PublisherLaws.Usable;
    BeginInv(s0);
    SystemRunInv(s0, steps);
    var w, topic := Finally(s0, steps).world, s0.sub.topic;
    var a := Succ(Finally(s0, steps), step).sub.attached.value;
    assert step.ReadEntry? || step.NextEvent?;
    AttachPresent(w, topic, a.name, step.lucky);
    PublisherLaws.ReadyUnderInv(w, Path(topic, a.name));
  }

  // The name a step would attach under.
  function Tried(sub: Subscriber, step: SystemStep): Option<Handle> {
    match step
    case ReadEntry(n, _) => if sub.attached.None? then Some(n) else None
    case NextEvent(_) =>
      if sub.attached.None? && sub.batch != [] && sub.batch[0].CloseWrite? then Some(sub.batch[0].name) else None
    case _ => None
  }

  // A publisher that has filled its record can be looked at, for ever after, exactly if its
  // queue is not empty.
  lemma LegibleIffQueued(w: World, g: Generation)
    requires Inv(w) && g in w.pubs && w.pubs[g].Filled()
    ensures Legible(BufferOf(w.memory, g)) <==> w.pubs[g].queueSize > 0
  {
    hide *;
    Described(w, g);
    var data, rec := BufferOf(w.memory, g), InfoOf(w.pubs[g]);
    var present := Record.Stored(rec);
    Laws.ScalarRead(data, rec, present, Record.Pid);
    Laws.ScalarRead(data, rec, present, Record.LastIndex);
    Laws.VectorRead(data, rec, present, Record.IndexCyclePool);
    Laws.VectorRead(data, rec, present, Record.MsgIdPool);
    Laws.VectorRead(data, rec, present, Record.DmaBuffFd);
    WhatIsShown(data);
  }

  lemma WhatIsShown(data: seq<byte>)
    requires Record.ScalarFits(data, Record.Pid) && Record.ScalarFits(data, Record.LastIndex)
    requires Record.VectorFits(data, Record.IndexCyclePool) && Record.VectorFits(data, Record.MsgIdPool)
    requires Record.VectorFits(data, Record.DmaBuffFd)
    ensures Legible(data) <==>
              Record.HasVector(data, Record.IndexCyclePool) && Record.HasVector(data, Record.MsgIdPool)
              && Record.HasVector(data, Record.DmaBuffFd)
  {
    hide Record.ScalarFits, Record.VectorFits, Record.HasVector;
  }

  // A filled buffer holds the record, and the record's vectors are as long as the queue.
  lemma Described(w: World, g: Generation)
    requires Inv(w) && g in w.pubs && w.pubs[g].Filled()
    ensures
      var rec := InfoOf(w.pubs[g]);
      && Laws.Holds(BufferOf(w.memory, g), rec, Record.Stored(rec))
      && forall v: Record.VectorField :: v.Count(rec) != 0 <==> w.pubs[g].queueSize > 0
  {
    hide Record.PackWith, Record.Stored, FileHeld;
    assert PublisherInv(w, g);
  }

  lemma AdvertisedIsFilled(w: World, topic: string, n: Handle)
    requires Inv(w) && Present(w, topic, n)
    ensures GenerationOf(w, topic, n) in w.pubs && w.pubs[GenerationOf(w, topic, n)].Filled()
  {
    hide PublisherInv;
  }

  // What a looping, watched subscriber is attached to it can look at, unless its end is still
  // to be announced or its publisher has an empty queue.
  lemma AttachedIsLegible(s0: System, steps: seq<SystemStep>)
    requires Begins(s0) && Proceeds(s0, steps)
    requires Finally(s0, steps).sub.mode.Looping? && Finally(s0, steps).sub.watch.Some?
    requires Finally(s0, steps).sub.attached.Some?
    ensures
      var s := Finally(s0, steps);
      var a := s.sub.attached.value;
      || s.sub.Pends(DeleteSelf)
      || s.sub.Pends(Delete(a.name))
      || (&& UpToDate(s.world, s.sub.topic, a) && a.target.gen in s.world.pubs
          && (Legible(BufferOf(s.world.memory, a.target.gen)) <==> s.world.pubs[a.target.gen].queueSize > 0))
  {
    hide Inv, Begins, Legible;
    BeginInv(s0);
    SystemRunInv(s0, steps);
    var s := Finally(s0, steps);
    var a := s.sub.attached.value;
    if UpToDate(s.world, s.sub.topic, a) {
      AdvertisedIsFilled(s.world, s.sub.topic, a.name);
      LegibleIffQueued(s.world, a.target.gen);
    }
  }

  // There is no buffer behind a name: nothing is open there, or something that has no size.
  predicate NoBuffer(fds: map<Handle, Object>, n: Handle, lucky: bool) {
    n in fds ==>
      match fds[n]
      case QueueBuffer(_, _) => false
      case InfoBuffer(_) => false
      case EventCounter(_) => true
      case Foreign => !lucky
  }

  // The step tries a name behind which there is no buffer, or looks at what cannot be read.
  predicate Ends(s: System, step: SystemStep) {
    || (Tried(s.sub, step).Some? && NoBuffer(s.world.fds, Tried(s.sub, step).value, step.lucky))
    || (step.LookAtRecord? && s.sub.attached.Some? && !Reads(s.world.memory, s.sub.attached.value, step.lucky))
  }

  // A watched subscriber ends exactly then.  A name that is tried in vain has no file any more,
  // and its end is still to be announced; unless the end of the attachment is, a look ends the
  // subscriber exactly if the publisher's queue is empty.
  lemma EndsIff(s0: System, steps: seq<SystemStep>, step: SystemStep)
    requires Begins(s0) && Proceeds(s0, steps) && Possible(Finally(s0, steps), step)
    requires Finally(s0, steps).sub.Watchful() && !Finally(s0, steps).sub.mode.Crashed?
    ensures Succ(Finally(s0, steps), step).sub.mode.Crashed? <==> Ends(Finally(s0, steps), step)
    ensures
      var s := Finally(s0, steps);
      Ends(s, step) && Tried(s.sub, step).Some? ==>
        && !Present(s.world, s.sub.topic, Tried(s.sub, step).value)
        && s.sub.Pends(Delete(Tried(s.sub, step).value))
    ensures
      var s := Finally(s0, steps);
      step.LookAtRecord? && s.sub.attached.Some? && !s.sub.Pends(Delete(s.sub.attached.value.name)) ==>
        && s.sub.attached.value.target.InfoBuffer? && s.sub.attached.value.target.gen in s.world.pubs
        && (Ends(s, step) <==> s.world.pubs[s.sub.attached.value.target.gen].queueSize == 0)
  {
    hide Inv, Begins, Attach, NoBuffer, Legible;
    BeginInv(s0);
    SystemRunInv(s0, steps);
    var s := Finally(s0, steps);
    assert Sound(s.world, s.sub);
    var tried := Tried(s.sub, step);
    if tried.Some? {
      AttachFails(s.world.fds, tried.value, step.lucky);
    }
    if tried.Some? && Present(s.world, s.sub.topic, tried.value) {
      AttachPresent(s.world, s.sub.topic, tried.value, step.lucky);
    }
    if step.LookAtRecord? && s.sub.attached.Some? && !s.sub.Pends(Delete(s.sub.attached.value.name)) {
      AttachedIsLegible(s0, steps);
    }
  }

  lemma AttachFails(fds: map<Handle, Object>, n: Handle, lucky: bool)
    ensures Attach(fds, n, lucky).None? <==> NoBuffer(fds, n, lucky)
  {
  }

  // ---------- Looking for the directory and watching it ----------

  // A subscriber that has come as far as the scan has a watch.
  predicate Guarded(sub: Subscriber) {
    sub.mode.Watching? || sub.mode.Scanning? || sub.mode.Looping? ==> sub.watch.Some?
  }

  // One step: nobody gets to the watch but by finding the directory, nobody gets past it but
  // by adding it, and without a directory the subscriber stays where it is.
  lemma OneStepGuarded(s: System, step: SystemStep)
    requires Possible(s, step)
    ensures Guarded(s.sub) && (step.AddWatch? ==> s.sub.topic in s.world.dirs) ==> Guarded(Succ(s, step).sub)
    ensures Succ(s, step).sub.mode.HasDirectory? && !s.sub.mode.HasDirectory? ==>
              step.Stat? && s.sub.topic in s.world.dirs
    ensures Succ(s, step).sub.mode.Watching? && !s.sub.mode.Watching? ==>
              step.AddWatch? && (Succ(s, step).sub.watch.Some? <==> s.sub.topic in s.world.dirs)
    ensures step.Stat? && s.sub.topic !in s.world.dirs ==> Succ(s, step) == s
  {
    hide Next, Enabled, NoticeOf, Attach, Reads;
  }

  // The event a step takes from the batch.
  function Taken(sub: Subscriber, step: SystemStep): Option<Event> {
    if step.NextEvent? && sub.batch != [] then Some(sub.batch[0]) else None
  }

  // It starts over exactly at the end of a file or of the directory; until then it keeps its
  // attachment, and without one it takes the first that it tries and gets.
  lemma OneStepAttached(s: System, step: SystemStep)
    requires Possible(s, step) && !s.sub.mode.Waiting?
    ensures
      Succ(s, step).sub.mode.Waiting? <==>
        Taken(s.sub, step).Some? && (Taken(s.sub, step).value.Delete? || Taken(s.sub, step).value.DeleteSelf?)
    ensures !Succ(s, step).sub.mode.Waiting? && s.sub.attached.Some? ==> Succ(s, step).sub.attached == s.sub.attached
    ensures
      var t := Succ(s, step);
      var tried := Tried(s.sub, step);
      s.sub.attached.None? ==>
        (t.sub.attached.Some? <==> tried.Some? && !NoBuffer(s.world.fds, tried.value, step.lucky))
    ensures
      var t := Succ(s, step);
      s.sub.attached.None? && t.sub.attached.Some? ==>
        var n := Tried(s.sub, step).value;
        n in s.world.fds && t.sub.attached.value == Attachment(n, s.world.fds[n])
  {
    hide Next, Enabled, NoticeOf, Reads;
  }

  // Every way to end, of every subscriber: besides those, scanning a directory that is gone.
  lemma OneStepEnds(s: System, step: SystemStep)
    requires Possible(s, step) && !s.sub.mode.Crashed?
    ensures Succ(s, step).sub.mode.Crashed? <==> Ends(s, step) || (step.OpenDirectory? && s.sub.topic !in s.world.dirs)
    ensures step.Outside? ==> !Succ(s, step).sub.mode.Crashed?
  {
    hide Next, Enabled, NoticeOf, Reads;
  }

  // ---------- The events on their way ----------

  function Pending(sub: Subscriber): seq<Event> {
    sub.batch + sub.queue
  }

  // The subscriber takes its events one by one from the front and loses none of them, unless
  // it starts over; others only add events at the end; and every pass of the loop looks at the
  // record before it reads.
  lemma OneStepEvents(s: System, step: SystemStep)
    requires Possible(s, step)
    ensures
      var before, after := Pending(s.sub), Pending(Succ(s, step).sub);
      if step.Outside? then before <= after
      else if !step.NextEvent? then before == after
      else before != [] && after == if Succ(s, step).sub.mode.Waiting? then [] else before[1..]
    ensures step.ReadEvents? ==> s.sub.mode.Looping? && s.sub.mode.seen && !Succ(s, step).sub.mode.seen
    ensures Seen(Succ(s, step).sub) && !Seen(s.sub) ==> step.LookAtRecord?
  {
    hide Next, Enabled, NoticeOf, Attach, Reads;
    match step {
      case ReadEvents(count) => assert s.sub.queue == s.sub.queue[..count] + s.sub.queue[count..];
      case _ =>
    }
  }

  predicate Seen(sub: Subscriber) {
    sub.mode.Looping? && sub.mode.seen
  }

  // The kernel never queues an event twice in a row, in no run.
  ghost predicate NoRepeats(queue: seq<Event>) {
    forall i | 0 <= i < |queue| - 1 :: queue[i] != queue[i + 1]
  }

  lemma OneStepNoRepeats(s: System, step: SystemStep)
    requires Possible(s, step) && NoRepeats(s.sub.queue)
    ensures NoRepeats(Succ(s, step).sub.queue)
  {
    hide Next, Enabled, Attach, Reads, Rescanned;
    if step.Outside? {
      NeverToldIgnored(s.world, step.step, s.sub.topic);
    }
  }

  lemma NeverToldIgnored(w: World, s: Step, topic: string)
    requires Enabled(w, s)
    ensures Told(topic, NoticeOf(w, s)) != Some(Ignored)
  {
  }

  lemma {:induction false} NeverTwiceInARow(s: System, steps: seq<SystemStep>)
    requires NoRepeats(s.sub.queue) && Proceeds(s, steps)
    ensures NoRepeats(Finally(s, steps).sub.queue)
    decreases |steps|
  {
    hide NoRepeats, Possible, Succ;
    if steps != [] {
      OneStepNoRepeats(s, steps[0]);
      NeverTwiceInARow(Succ(s, steps[0]), steps[1..]);
    }
  }

  // No inotify_add_watch of the run comes too late.
  predicate WatchesTaken(s: System, steps: seq<SystemStep>)
    requires Proceeds(s, steps)
    decreases |steps|
  {
    steps == [] ||
    ((steps[0].AddWatch? ==> s.sub.topic in s.world.dirs) && WatchesTaken(Succ(s, steps[0]), steps[1..]))
  }

  // Then, however often the subscriber starts over, it never scans or loops without a watch.
  lemma {:induction false} AlwaysWatched(s: System, steps: seq<SystemStep>)
    requires Guarded(s.sub) && Proceeds(s, steps) && WatchesTaken(s, steps)
    ensures Guarded(Finally(s, steps).sub)
    decreases |steps|
  {
    hide Guarded, Possible, Succ;
    if steps != [] {
      OneStepGuarded(s, steps[0]);
      AlwaysWatched(Succ(s, steps[0]), steps[1..]);
    }
  }

  // So it agrees with the directory whenever it is in its loop and all is quiet.
  lemma AgreementIfWatchesTaken(s0: System, steps: seq<SystemStep>)
    requires Begins(s0) && Proceeds(s0, steps) && WatchesTaken(s0, steps)
    requires Finally(s0, steps).sub.mode.Looping? && Quiet(Finally(s0, steps))
    ensures
      var s := Finally(s0, steps);
      && (s.sub.attached.Some? <==> exists n :: Present(s.world, s.sub.topic, n))
      && (s.sub.attached.Some? ==> UpToDate(s.world, s.sub.topic, s.sub.attached.value))
  {
    hide WatchesTaken, Proceeds, Finally, Quiet;
    AlwaysWatched(s0, steps);
    QuiescentAgreement(s0, steps);
  }
}
