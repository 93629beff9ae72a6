// The camera's ring of buffers: each index goes back and forth between the driver and
// the application, always with the descriptor and the mapping it was allocated with.
module CaptureRing {
  // What the kernel answers when a buffer is allocated and mapped.
  datatype Buffer = Buffer(fd: int, addr: int)

  // A dequeued frame: the index the driver chose and where the application reads it.
  datatype Frame = Frame(index: nat, addr: int)

  // Who has which index, and what the driver's are queued with.
  datatype Owners = Owners(application: set<nat>, queued: map<nat, int>)

  // Each index belongs to exactly one side, the application has at most one, and what
  // the driver has carries its own descriptor.
  ghost predicate Shared(ring: seq<Buffer>, o: Owners) {
    && (forall i: nat :: i < |ring| <==> i in o.application || i in o.queued)
    && (forall i :: i in o.queued ==> i !in o.application && i < |ring| && o.queued[i] == ring[i].fd)
    && (forall i, j :: i in o.application && j in o.application ==> i == j)
  }

  // The driver has every index, with its descriptor.
  function Full(ring: seq<Buffer>): map<nat, int> {
    map i: nat | i < |ring| :: ring[i].fd
  }

  class Device {
    // The queued indices and the descriptor each was queued with.
    var queued: map<nat, int>
    // The indices the driver has given back, and who had what after every exchange.
    ghost var taken: set<nat>
    ghost var history: seq<Owners>

    constructor ()
      ensures queued == map[] && taken == {} && history == []
    {
      queued, taken, history := map[], {}, [];
    }

    // From here on the exchanges are recorded.
    ghost method StartStreaming()
      modifies this`history
      ensures history == []
    {
      history := [];
    }

    // An index that is queued cannot be queued again.
    method Enqueue(index: nat, fd: int)
      requires index !in queued
      modifies this
      ensures queued == old(queued)[index := fd] && taken == old(taken) - {index}
      ensures history == old(history) + [Owners(taken, queued)]
    {
      queued := queued[index := fd];
      taken := taken - {index};
      history := history + [Owners(taken, queued)];
    }

    // The driver gives back whichever queued buffer it finished.
    method Dequeue(finished: nat) returns (index: nat)
      requires finished in queued
      modifies this
      ensures index == finished && queued == old(queued) - {finished} && taken == old(taken) + {finished}
      ensures history == old(history) + [Owners(taken, queued)]
    {
      index := finished;
      queued := queued - {finished};
      taken := taken + {finished};
      history := history + [Owners(taken, queued)];
    }
  }

  // The arrays hold the ring.
  ghost predicate Holds(fds: array<int>, maps: array<int>, ring: seq<Buffer>)
    reads fds, maps
  {
    fds.Length == maps.Length == |ring| && forall i | 0 <= i < |ring| :: ring[i] == Buffer(fds[i], maps[i])
  }

  // Every buffer is allocated and mapped.
  method Allocate(fds: array<int>, maps: array<int>, answers: seq<Buffer>)
    requires fds.Length == maps.Length == |answers| && fds != maps
    modifies fds, maps
    ensures Holds(fds, maps, answers)
  {
    var i := 0;
    while i < fds.Length
      invariant 0 <= i <= fds.Length
      invariant forall k | 0 <= k < i :: answers[k] == Buffer(fds[k], maps[k])
    {
      fds[i] := answers[i].fd;
      maps[i] := answers[i].addr;
      i := i + 1;
    }
  }

  // Every buffer is enqueued once, in the order of the indices.
  method Fill(device: Device, fds: array<int>, maps: array<int>, ghost ring: seq<Buffer>)
    requires device.queued == map[] && device.taken == {} && Holds(fds, maps, ring)
    modifies device
    ensures device.queued == Full(ring) && device.taken == {}
  {
    var i := 0;
    while i < fds.Length
      invariant 0 <= i <= fds.Length
      invariant device.queued == Full(ring[..i]) && device.taken == {}
    {
      assert ring[..i + 1][..i] == ring[..i];
      device.Enqueue(i, fds[i]);
      i := i + 1;
    }
    assert ring[..i] == ring;
  }

  // The capture loop, for any order in which the driver finishes buffers.
  method Capture(device: Device, fds: array<int>, maps: array<int>, order: seq<nat>, ghost ring: seq<Buffer>)
    returns (frames: seq<Frame>)
    requires device.queued == Full(ring) && device.taken == {} && device.history == [] && Holds(fds, maps, ring)
    requires forall k | 0 <= k < |order| :: order[k] < |ring|
    modifies device
    ensures device.queued == Full(ring) && device.taken == {}
    ensures |frames| == |order| && forall k | 0 <= k < |order| :: frames[k] == Frame(order[k], ring[order[k]].addr)
    ensures forall o | o in device.history :: Shared(ring, o)
  {
    hide Full, Shared;
    frames := [];
    var count := 0;
    while count < |order|
      invariant 0 <= count <= |order| && |frames| == count
      invariant device.queued == Full(ring) && device.taken == {}
      invariant forall k | 0 <= k < count :: frames[k] == Frame(order[k], ring[order[k]].addr)
      invariant forall o | o in device.history :: Shared(ring, o)
    {
      TurnIsShared(ring, order[count]);
      var index := device.Dequeue(order[count]);
      frames := frames + [Frame(index, maps[index])];
      device.Enqueue(index, fds[index]);
      count := count + 1;
    }
  }

  // While an index is away and when it is back, the ring is shared.
  lemma TurnIsShared(ring: seq<Buffer>, index: nat)
    requires index < |ring|
    ensures
      var queued, full := Full(ring) - {index}, Full(ring);
      && index in full && index !in queued && queued[index := ring[index].fd] == full
      && {} + {index} - {index} == {}
      && Shared(ring, Owners({} + {index}, queued)) && Shared(ring, Owners({}, full))
  {
  }

  // The program: allocate, enqueue, and capture for as long as frames come.
  method Run(answers: seq<Buffer>, order: seq<nat>) returns (frames: seq<Frame>, device: Device)
    requires forall k | 0 <= k < |order| :: order[k] < |answers|
    ensures device.queued == Full(answers)
    ensures |frames| == |order| && forall k | 0 <= k < |order| :: frames[k] == Frame(order[k], answers[order[k]].addr)
    ensures forall o | o in device.history :: Shared(answers, o)
  {
    var fds, maps := new int[|answers|], new int[|answers|];
    Allocate(fds, maps, answers);
    device := new Device();
    Fill(device, fds, maps, answers);
    device.StartStreaming();
    frames := Capture(device, fds, maps, order, answers);
  }
}
