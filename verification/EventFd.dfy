// Notifications through an eventfd: each is a write and then a read, and any number of
// notifiers interleave theirs.
module EventFd {
  // The counter of a semaphore goes down by one with every read; that of a plain
  // eventfd goes down to zero.
  datatype Kind = Semaphore | Plain

  // The counter, and the notifiers between their write and their read.
  datatype State = State(counter: nat, inside: set<nat>)

  datatype Step = Write(id: nat) | Read(id: nat)

  // The largest value a counter takes.
  const LIMIT: nat := 0xFFFF_FFFF_FFFF_FFFE

  function Start(): State {
    State(0, {})
  }

  // It is a notifier's turn to take the step,
  predicate Wants(n: nat, s: State, step: Step) {
    match step
    case Write(id) => id < n && id !in s.inside
    case Read(id) => id in s.inside
  }

  // and the kernel lets it: a write blocks at the limit, a read at zero.
  predicate Unblocked(limit: nat, s: State, step: Step) {
    match step
    case Write(_) => s.counter < limit
    case Read(_) => s.counter > 0
  }

  function Next(kind: Kind, s: State, step: Step): State
    requires step.Read? ==> s.counter > 0
  {
    match step
    case Write(id) => State(s.counter + 1, s.inside + {id})
    case Read(id) => State(if kind.Semaphore? then s.counter - 1 else 0, s.inside - {id})
  }

  predicate Runs(kind: Kind, limit: nat, n: nat, s: State, steps: seq<Step>)
    decreases |steps|
  {
    steps == [] ||
    (Wants(n, s, steps[0]) && Unblocked(limit, s, steps[0])
      && Runs(kind, limit, n, Next(kind, s, steps[0]), steps[1..]))
  }

  function After(kind: Kind, limit: nat, n: nat, s: State, steps: seq<Step>): State
    requires Runs(kind, limit, n, s, steps)
    decreases |steps|
  {
    if steps == [] then s else After(kind, limit, n, Next(kind, s, steps[0]), steps[1..])
  }

  ghost predicate Reachable(kind: Kind, limit: nat, n: nat, s: State) {
    exists steps :: Runs(kind, limit, n, Start(), steps) && After(kind, limit, n, Start(), steps) == s
  }

  // Somebody has to wait for the others.
  ghost predicate Blocked(limit: nat, n: nat, s: State) {
    exists step :: Wants(n, s, step) && !Unblocked(limit, s, step)
  }

  function Ids(n: nat): (ids: set<nat>)
    ensures forall id: nat :: id in ids <==> id < n
    ensures |ids| == n
  {
    if n == 0 then {}
    else
      var ids := Ids(n - 1);
      assert n - 1 !in ids;
      ids + {n - 1}
  }

  lemma SubsetSize(a: set<nat>, b: set<nat>)
    requires a <= b
    ensures |a| <= |b| && (|a| == |b| ==> a == b)
    decreases |b|
  {
    if x :| x in b {
      SubsetSize(a - {x}, b - {x});
      assert b == (b - {x}) + {x};
      assert a == if x in a then (a - {x}) + {x} else a - {x};
    } else {
      assert a == {};
    }
  }

  // ---------- Semaphore ----------

  ghost predicate Counts(limit: nat, n: nat, s: State) {
    s.counter == |s.inside| <= limit && s.inside <= Ids(n)
  }

  lemma {:induction false} RunCounts(limit: nat, n: nat, s: State, steps: seq<Step>)
    requires Counts(limit, n, s) && Runs(Semaphore, limit, n, s, steps)
    ensures Counts(limit, n, After(Semaphore, limit, n, s, steps))
    decreases |steps|
  {
    if steps != [] {
      RunCounts(limit, n, Next(Semaphore, s, steps[0]), steps[1..]);
    }
  }

  // The counter is the number of notifiers between their two steps.
  lemma CounterIsInside(limit: nat, n: nat, s: State)
    requires Reachable(Semaphore, limit, n, s)
    ensures s.counter == |s.inside| && s.inside <= Ids(n)
  {
    var steps :| Runs(Semaphore, limit, n, Start(), steps) && After(Semaphore, limit, n, Start(), steps) == s;
    RunCounts(limit, n, Start(), steps);
  }

  // So no read ever blocks, and the counter is back at zero when all have finished.
  lemma NoReadBlocks(limit: nat, n: nat, s: State, id: nat)
    requires Reachable(Semaphore, limit, n, s) && Wants(n, s, Read(id))
    ensures Unblocked(limit, s, Read(id))
  {
    CounterIsInside(limit, n, s);
  }

  lemma ZeroWhenIdle(limit: nat, n: nat, s: State)
    requires Reachable(Semaphore, limit, n, s)
    ensures s.counter == 0 <==> s.inside == {}
  {
    CounterIsInside(limit, n, s);
  }

  // All n notifiers write, one after the other.
  lemma {:induction false} AllWrite(limit: nat, n: nat, k: nat) returns (steps: seq<Step>)
    requires k <= n && k <= limit
    ensures forall kind ::
              Runs(kind, limit, n, Start(), steps) && After(kind, limit, n, Start(), steps) == State(k, Ids(k))
    decreases k
  {
    if k == 0 {
      steps := [];
    } else {
      var before := AllWrite(limit, n, k - 1);
      steps := before + [Write(k - 1)];
      forall kind
        ensures Runs(kind, limit, n, Start(), steps) && After(kind, limit, n, Start(), steps) == State(k, Ids(k))
      {
        OneMore(kind, limit, n, Start(), before, Write(k - 1));
        assert Next(kind, State(k - 1, Ids(k - 1)), Write(k - 1)) == State(k, Ids(k));
      }
    }
  }

  lemma {:induction false} OneMore(kind: Kind, limit: nat, n: nat, s: State, steps: seq<Step>, step: Step)
    requires Runs(kind, limit, n, s, steps)
    requires Wants(n, After(kind, limit, n, s, steps), step) && Unblocked(limit, After(kind, limit, n, s, steps), step)
    ensures Runs(kind, limit, n, s, steps + [step])
    ensures
      After(kind, limit, n, s, steps + [step]) == Next(kind, After(kind, limit, n, s, steps), step)
    decreases |steps|
  {
    hide Wants, Next;
    var all := steps + [step];
    if steps == [] {
      assert all[1..] == [];
    } else {
      assert all[0] == steps[0] && all[1..] == steps[1..] + [step];
      OneMore(kind, limit, n, Next(kind, s, steps[0]), steps[1..], step);
    }
  }

  // A notifier can come to wait for others, exactly when there are more notifiers than
  // the counter can count.
  lemma BlockedIffTooMany(limit: nat, n: nat)
    ensures (exists s :: Reachable(Semaphore, limit, n, s) && Blocked(limit, n, s)) <==> n > limit
  {
    if s :| Reachable(Semaphore, limit, n, s) && Blocked(limit, n, s) {
      FullWhenBlocked(limit, n, s);
    }
    if n > limit {
      var steps := AllWrite(limit, n, limit);
      var s := State(limit, Ids(limit));
      assert Runs(Semaphore, limit, n, Start(), steps) && After(Semaphore, limit, n, Start(), steps) == s;
      assert Wants(n, s, Write(limit)) && !Unblocked(limit, s, Write(limit));
      assert Reachable(Semaphore, limit, n, s) && Blocked(limit, n, s);
    }
  }

  lemma FullWhenBlocked(limit: nat, n: nat, s: State)
    requires Reachable(Semaphore, limit, n, s) && Blocked(limit, n, s)
    ensures n > limit
  {
    CounterIsInside(limit, n, s);
    var step :| Wants(n, s, step) && !Unblocked(limit, s, step);
    assert step.Write?;
    SubsetSize(s.inside + {step.id}, Ids(n));
  }

  // Whatever state the notifiers are in, those between their two steps can finish.
  lemma {:induction false} AllCanFinish(limit: nat, n: nat, s: State) returns (steps: seq<Step>)
    requires Counts(limit, n, s)
    ensures Runs(Semaphore, limit, n, s, steps) && After(Semaphore, limit, n, s, steps) == Start()
    decreases |s.inside|
  {
    if id :| id in s.inside {
      var next := Next(Semaphore, s, Read(id));
      var rest := AllCanFinish(limit, n, next);
      steps := [Read(id)] + rest;
      assert steps[1..] == rest;
    } else {
      steps := [];
    }
  }

  // ---------- The class ----------

  // An event, the kernel's counter behind its descriptor, and who is between its steps.
  class Event {
    var eventFd: int
    var counter: nat
    ghost var inside: set<nat>

    // The descriptor is the kernel's answer, negative when it has none.
    constructor (eventFd: int)
      ensures this.eventFd == eventFd && State(counter, inside) == Start()
    {
      this.eventFd, counter, inside := eventFd, 0, {};
    }

    ghost function Value(): State
      reads this
    {
      State(counter, inside)
    }

    // Whatever the others do between the write and the read, as far as the kernel lets
    // them, the read does not block, and both together leave no trace.
    method Notify(ghost id: nat, ghost n: nat, others: seq<Step>)
      requires Counts(LIMIT, n, Value()) && Wants(n, Value(), Write(id)) && Unblocked(LIMIT, Value(), Write(id))
      requires Runs(Semaphore, LIMIT, n, Next(Semaphore, Value(), Write(id)), others) && Read(id) !in others
      modifies this`counter, this`inside
      ensures
        var before := After(Semaphore, LIMIT, n, Next(Semaphore, old(Value()), Write(id)), others);
        && Wants(n, before, Read(id)) && Unblocked(LIMIT, before, Read(id))
        && Value() == Next(Semaphore, before, Read(id))
      ensures Counts(LIMIT, n, Value()) && counter == |inside|
    {
      hide Runs, After, Counts;
      ghost var start := Next(Semaphore, Value(), Write(id));
      WriteCounts(LIMIT, n, Value(), id);
      counter, inside := counter + 1, inside + {id};
      RunCounts(LIMIT, n, start, others);
      assert others[0..] == others;
      for k := 0 to |others|
        invariant id in inside && Runs(Semaphore, LIMIT, n, Value(), others[k..])
        invariant After(Semaphore, LIMIT, n, start, others) == After(Semaphore, LIMIT, n, Value(), others[k..])
      {
        NextOf(LIMIT, n, Value(), others, k);
        match others[k] {
          case Write(other) => counter, inside := counter + 1, inside + {other};
          case Read(other) => counter, inside := counter - 1, inside - {other};
        }
      }
      NoneLeft(LIMIT, n, Value(), others);
      ReadCounts(LIMIT, n, Value(), id);
      counter, inside := counter - 1, inside - {id};
    }

    // Whether the destructor closes the descriptor: not descriptor 0.
    method Destroy() returns (closes: bool)
      ensures closes <==> eventFd > 0
    {
      closes := eventFd > 0;
    }
  }

  lemma WriteCounts(limit: nat, n: nat, s: State, id: nat)
    requires Counts(limit, n, s) && Wants(n, s, Write(id)) && Unblocked(limit, s, Write(id))
    ensures Counts(limit, n, Next(Semaphore, s, Write(id)))
  {
  }

  lemma ReadCounts(limit: nat, n: nat, s: State, id: nat)
    requires Counts(limit, n, s) && Wants(n, s, Read(id))
    ensures Unblocked(limit, s, Read(id)) && Counts(limit, n, Next(Semaphore, s, Read(id)))
    ensures Next(Semaphore, s, Read(id)).counter == |Next(Semaphore, s, Read(id)).inside|
  {
  }

  lemma NextOf(limit: nat, n: nat, s: State, steps: seq<Step>, k: nat)
    requires k < |steps| && Runs(Semaphore, limit, n, s, steps[k..])
    ensures Wants(n, s, steps[k]) && Unblocked(limit, s, steps[k])
    ensures Runs(Semaphore, limit, n, Next(Semaphore, s, steps[k]), steps[k + 1..])
    ensures
      After(Semaphore, limit, n, s, steps[k..]) ==
        After(Semaphore, limit, n, Next(Semaphore, s, steps[k]), steps[k + 1..])
  {
    assert steps[k..][0] == steps[k] && steps[k..][1..] == steps[k + 1..];
  }

  lemma NoneLeft(limit: nat, n: nat, s: State, steps: seq<Step>)
    requires Runs(Semaphore, limit, n, s, steps[|steps|..])
    ensures After(Semaphore, limit, n, s, steps[|steps|..]) == s
  {
    assert steps[|steps|..] == [];
  }

  // ---------- Plain counter ----------

  // Those between their steps all wait, until somebody begins a new notification.
  predicate Stranded(s: State) {
    s.counter == 0 && s.inside != {}
  }

  lemma StrandedWaits(kind: Kind, limit: nat, n: nat, s: State, steps: seq<Step>)
    requires Stranded(s) && Runs(kind, limit, n, s, steps) && steps != []
    ensures steps[0].Write?
  {
  }

  // Without the semaphore, two notifiers are enough to strand one: the first one's read
  // takes both writes.
  lemma PlainStrandsIffTwo(limit: nat, n: nat)
    requires limit >= 2
    ensures (exists s :: Reachable(Plain, limit, n, s) && Stranded(s)) <==> n >= 2
  {
    if n >= 2 {
      var two := AllWrite(limit, n, 2);
      var both := State(2, Ids(2));
      OneMore(Plain, limit, n, Start(), two, Read(0));
      var s := Next(Plain, both, Read(0));
      assert 1 in s.inside;
      assert Reachable(Plain, limit, n, s);
    } else {
      forall s | Reachable(Plain, limit, n, s) ensures !Stranded(s) {
        var steps :| Runs(Plain, limit, n, Start(), steps) && After(Plain, limit, n, Start(), steps) == s;
        AloneCounts(limit, n, Start(), steps);
      }
    }
  }

  ghost predicate Alone(s: State) {
    s == State(0, {}) || s == State(1, {0})
  }

  lemma {:induction false} AloneCounts(limit: nat, n: nat, s: State, steps: seq<Step>)
    requires n < 2 && Alone(s) && Runs(Plain, limit, n, s, steps)
    ensures Alone(After(Plain, limit, n, s, steps))
    decreases |steps|
  {
    if steps != [] {
      AloneCounts(limit, n, Next(Plain, s, steps[0]), steps[1..]);
    }
  }
}
