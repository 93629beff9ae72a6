// Buffer objects of one process: what their constructors open and map and what their
// destructors close and unmap, with any number of objects at work at the same time.
module DmaBuffer {
  import opened Wrappers
  import FdInfo

  // Whom an open descriptor is for: a buffer's own, a heap or process descriptor on the
  // way to it, or something else.
  datatype Owner = BufferOf(id: nat) | HelperOf(id: nat) | Foreign

  datatype Mapping = Mapping(id: nat, size: nat)

  // How far an object is: its helper is open; so is its descriptor; its helper is
  // closed again; it is mapped and in use; its descriptor is closed; it is unmapped.
  datatype Stage = Opened | Fetched | Connected | Live | Closed | Dead

  // `destroyed`: its destructor has been called.
  datatype Object = Object(stage: Stage, helper: nat, fd: nat, addr: nat, size: nat, destroyed: bool) {
    predicate HoldsHelper() {
      stage.Opened? || stage.Fetched?
    }

    predicate HoldsFd() {
      stage.Fetched? || stage.Connected? || stage.Live?
    }

    predicate HoldsMapping() {
      stage.Live? || stage.Closed?
    }
  }

  // `wrong` counts the calls that closed a descriptor or unmapped a mapping that was not
  // the caller's.
  datatype State = State(objects: map<nat, Object>, fds: map<nat, Owner>, maps: map<nat, Mapping>, wrong: nat)

  datatype Step =
    | Open(id: nat, helper: nat)
    | Fetch(id: nat, fd: nat)
    | CloseHelper(id: nat)
    | Map(id: nat, addr: nat, size: nat)
    | Destroy(id: nat)
    | Unmap(id: nat)
    | ForeignOpen(fd: nat)
    | ForeignClose(fd: nat)

  // A destructor can be called on every object that was constructed, and again.
  predicate Enabled(s: State, step: Step) {
    match step
    case Open(id, helper) => id !in s.objects && helper !in s.fds
    case Fetch(id, fd) => id in s.objects && s.objects[id].stage.Opened? && fd !in s.fds
    case CloseHelper(id) => id in s.objects && s.objects[id].stage.Fetched?
    case Map(id, addr, _) => id in s.objects && s.objects[id].stage.Connected? && addr !in s.maps
    case Destroy(id) => id in s.objects && (s.objects[id].stage.Live? || s.objects[id].stage.Dead?)
    case Unmap(id) => id in s.objects && s.objects[id].stage.Closed?
    case ForeignOpen(fd) => fd !in s.fds
    case ForeignClose(fd) => fd in s.fds && s.fds[fd].Foreign?
  }

  function Closing(s: State, fd: nat, owner: Owner): State {
    s.(fds := s.fds - {fd}, wrong := if fd in s.fds && s.fds[fd] == owner then s.wrong else s.wrong + 1)
  }

  function Unmapping(s: State, addr: nat, m: Mapping): State {
    s.(maps := s.maps - {addr}, wrong := if addr in s.maps && s.maps[addr] == m then s.wrong else s.wrong + 1)
  }

  // The object after a step,
  function Moved(o: Object, step: Step): Object {
    match step
    case Open(_, helper) => Object(Opened, helper, 0, 0, 0, false)
    case Fetch(_, fd) => o.(stage := Fetched, fd := fd)
    case CloseHelper(_) => o.(stage := Connected)
    case Map(_, addr, size) => o.(stage := Live, addr := addr, size := size)
    // A destructor stops at once at descriptor 0 or below, and a closed object has -1.
    case Destroy(_) =>
      o.(stage := if o.stage.Live? && o.fd > 0 then Closed else o.stage, destroyed := true)
    case Unmap(_) => o.(stage := Dead)
    case _ => o
  }

  // and the process.
  function Next(s: State, step: Step): State
    requires Enabled(s, step)
  {
    match step
    case Open(id, helper) =>
      var o := Object(Opened, helper, 0, 0, 0, false);
      s.(objects := s.objects[id := o], fds := s.fds[helper := HelperOf(id)])
    case Fetch(id, fd) =>
      s.(objects := s.objects[id := Moved(s.objects[id], step)], fds := s.fds[fd := BufferOf(id)])
    case CloseHelper(id) =>
      var o := s.objects[id];
      Closing(s, o.helper, HelperOf(id)).(objects := s.objects[id := Moved(o, step)])
    case Map(id, addr, size) =>
      s.(objects := s.objects[id := Moved(s.objects[id], step)], maps := s.maps[addr := Mapping(id, size)])
    case Destroy(id) =>
      var o := s.objects[id];
      var closed := if o.stage.Live? && o.fd > 0 then Closing(s, o.fd, BufferOf(id)) else s;
      closed.(objects := s.objects[id := Moved(o, step)])
    case Unmap(id) =>
      var o := s.objects[id];
      Unmapping(s, o.addr, Mapping(id, o.size)).(objects := s.objects[id := Moved(o, step)])
    case ForeignOpen(fd) => s.(fds := s.fds[fd := Foreign])
    case ForeignClose(fd) => s.(fds := s.fds - {fd})
  }

  predicate Runs(s: State, steps: seq<Step>)
    decreases |steps|
  {
    steps == [] || (Enabled(s, steps[0]) && Runs(Next(s, steps[0]), steps[1..]))
  }

  function After(s: State, steps: seq<Step>): State
    requires Runs(s, steps)
    decreases |steps|
  {
    if steps == [] then s else After(Next(s, steps[0]), steps[1..])
  }

  predicate Initial(s: State) {
    s.objects == map[] && s.maps == map[] && s.wrong == 0 && forall fd :: fd in s.fds ==> s.fds[fd].Foreign?
  }

  // ---------- Conservation ----------

  // An object has open what it holds,
  ghost predicate Held(o: Object, id: nat, fds: map<nat, Owner>, maps: map<nat, Mapping>) {
    && (o.HoldsHelper() ==> o.helper in fds && fds[o.helper] == HelperOf(id))
    && (o.HoldsFd() ==> o.fd in fds && fds[o.fd] == BufferOf(id))
    && (o.HoldsMapping() ==> o.addr in maps && maps[o.addr] == Mapping(id, o.size))
    && (o.stage.Closed? || o.stage.Dead? ==> o.destroyed && o.fd > 0)
    && (o.destroyed ==> o.stage.Closed? || o.stage.Dead? || (o.stage.Live? && o.fd == 0))
  }

  // and what is open, an object holds.
  ghost predicate FdHeld(objects: map<nat, Object>, fd: nat, owner: Owner) {
    match owner
    case BufferOf(id) => id in objects && objects[id].HoldsFd() && objects[id].fd == fd
    case HelperOf(id) => id in objects && objects[id].HoldsHelper() && objects[id].helper == fd
    case Foreign => true
  }

  ghost predicate MappingHeld(objects: map<nat, Object>, addr: nat, m: Mapping) {
    m.id in objects && objects[m.id].HoldsMapping() && objects[m.id].addr == addr && objects[m.id].size == m.size
  }

  ghost predicate Conserved(s: State) {
    && (forall id :: id in s.objects ==> Held(s.objects[id], id, s.fds, s.maps))
    && (forall fd :: fd in s.fds ==> FdHeld(s.objects, fd, s.fds[fd]))
    && (forall addr :: addr in s.maps ==> MappingHeld(s.objects, addr, s.maps[addr]))
    && s.wrong == 0
  }

  lemma StaysHeld(s: State, step: Step, id: nat)
    requires Conserved(s) && Enabled(s, step) && id in Next(s, step).objects
    ensures Held(Next(s, step).objects[id], id, Next(s, step).fds, Next(s, step).maps)
  {
    hide FdHeld, MappingHeld;
  }

  lemma StaysAccounted(s: State, step: Step, fd: nat)
    requires Conserved(s) && Enabled(s, step) && fd in Next(s, step).fds
    ensures FdHeld(Next(s, step).objects, fd, Next(s, step).fds[fd])
  {
    hide Held, MappingHeld;
  }

  lemma StaysMapped(s: State, step: Step, addr: nat)
    requires Conserved(s) && Enabled(s, step) && addr in Next(s, step).maps
    ensures MappingHeld(Next(s, step).objects, addr, Next(s, step).maps[addr])
  {
    hide Held, FdHeld;
  }

  // Only what is its caller's is closed and unmapped.
  lemma NothingWrong(s: State, step: Step)
    requires Conserved(s) && Enabled(s, step)
    ensures Next(s, step).wrong == 0
  {
    hide FdHeld, MappingHeld;
  }

  lemma StepConserves(s: State, step: Step)
    requires Conserved(s) && Enabled(s, step)
    ensures Conserved(Next(s, step))
  {
    hide Held, FdHeld, MappingHeld, Next, Enabled;
    var s' := Next(s, step);
    NothingWrong(s, step);
    forall id | id in s'.objects ensures Held(s'.objects[id], id, s'.fds, s'.maps) {
      StaysHeld(s, step, id);
    }
    forall fd | fd in s'.fds ensures FdHeld(s'.objects, fd, s'.fds[fd]) {
      StaysAccounted(s, step, fd);
    }
    forall addr | addr in s'.maps ensures MappingHeld(s'.objects, addr, s'.maps[addr]) {
      StaysMapped(s, step, addr);
    }
  }

  lemma {:induction false} RunConserves(s: State, steps: seq<Step>)
    requires Conserved(s) && Runs(s, steps)
    ensures Conserved(After(s, steps))
    decreases |steps|
  {
    hide Conserved, Enabled, Next;
    if steps != [] {
      StepConserves(s, steps[0]);
      RunConserves(Next(s, steps[0]), steps[1..]);
    }
  }

  // In every reachable state the open buffers, the open helpers and the mappings are,
  // one to one, what the objects hold, and no call ever closed or unmapped anything else.
  lemma Conservation(s0: State, steps: seq<Step>)
    requires Initial(s0) && Runs(s0, steps)
    ensures
      var s := After(s0, steps);
      && s.wrong == 0
      && (forall fd, id :: fd in s.fds && s.fds[fd] == BufferOf(id) <==>
            id in s.objects && s.objects[id].HoldsFd() && s.objects[id].fd == fd)
      && (forall fd, id :: fd in s.fds && s.fds[fd] == HelperOf(id) <==>
            id in s.objects && s.objects[id].HoldsHelper() && s.objects[id].helper == fd)
      && (forall addr, id, size :: addr in s.maps && s.maps[addr] == Mapping(id, size) <==>
            id in s.objects && s.objects[id].HoldsMapping() && s.objects[id].addr == addr && s.objects[id].size == size)
  {
    hide Enabled, Next;
    RunConserves(s0, steps);
  }

  // Once every object has been destructed, nothing of theirs is open or mapped, exactly
  // when none of them was handed descriptor 0.
  lemma CleanUnlessZero(s0: State, steps: seq<Step>)
    requires Initial(s0) && Runs(s0, steps)
    requires forall id :: id in After(s0, steps).objects ==>
               After(s0, steps).objects[id].destroyed && !After(s0, steps).objects[id].stage.Closed?
    ensures
      var s := After(s0, steps);
      (s.maps == map[] && forall fd :: fd in s.fds ==> s.fds[fd].Foreign?) <==>
        forall id :: id in s.objects ==> s.objects[id].fd != 0
  {
    hide Enabled, Next;
    RunConserves(s0, steps);
    var s := After(s0, steps);
    forall addr | addr in s.maps ensures s.maps[addr].id in s.objects && s.objects[s.maps[addr].id].fd == 0 {
      assert MappingHeld(s.objects, addr, s.maps[addr]);
      assert Held(s.objects[s.maps[addr].id], s.maps[addr].id, s.fds, s.maps);
    }
    assert forall fd | fd in s.fds :: FdHeld(s.objects, fd, s.fds[fd]);
    if id :| id in s.objects && s.objects[id].fd == 0 {
      assert Held(s.objects[id], id, s.fds, s.maps);
      assert 0 in s.fds && s.fds[0] == BufferOf(id);
    }
  }

  // Calling a destructor again changes nothing.
  lemma DestroyAgain(s0: State, steps: seq<Step>, id: nat)
    requires Initial(s0) && Runs(s0, steps) && Enabled(After(s0, steps), Destroy(id))
    requires After(s0, steps).objects[id].destroyed
    ensures Next(After(s0, steps), Destroy(id)) == After(s0, steps)
  {
    RunConserves(s0, steps);
    var s := After(s0, steps);
    assert Held(s.objects[id], id, s.fds, s.maps);
    assert s.objects[id := s.objects[id]] == s.objects;
  }

  // ---------- The class ----------

  class Process {
    var state: State

    method Do(step: Step)
      requires Enabled(state, step)
      modifies this
      ensures state == Next(old(state), step)
    {
      state := Next(state, step);
    }
  }

  // The class of buffer objects.
  class DMABuffer {
    const id: nat
    var dmaBufFd: int
    var buffer: Option<nat>
    var size: nat
    var heapName: string
    var bufferName: string

    // This object is the process's object `id`.
    ghost predicate Is(s: State)
      reads this
    {
      && id in s.objects && Held(s.objects[id], id, s.fds, s.maps)
      && match s.objects[id].stage
         case Live => dmaBufFd == s.objects[id].fd && buffer == Some(s.objects[id].addr) && size == s.objects[id].size
         case Dead => dmaBufFd == -1 && buffer == None && size == 0
         case _ => false
    }

    // Both constructors get a descriptor with the help of another one, read what the
    // kernel says about the buffer, and map it; the kernel's answers are parameters.
    constructor (process: Process, id: nat, helper: nat, fd: nat, fdInfo: string, addr: nat)
      requires Conserved(process.state) && id !in process.state.objects
      requires helper !in process.state.fds && fd !in process.state.fds && helper != fd && addr !in process.state.maps
      requires FdInfo.Read(fdInfo).Some?
      modifies process
      ensures Conserved(process.state) && Is(process.state)
      ensures id in process.state.objects && !process.state.objects[id].destroyed
      ensures
        var info := FdInfo.Read(fdInfo).value;
        && this.id == id && dmaBufFd == fd && buffer == Some(addr)
        && size == info.size && heapName == info.heapName && bufferName == info.bufferName
        && process.state.fds == old(process.state.fds)[fd := BufferOf(id)]
        && process.state.maps == old(process.state.maps)[addr := Mapping(id, info.size)]
    {
      hide FdInfo.Read, Conserved;
      this.id := id;
      this.dmaBufFd := fd;
      this.buffer := Some(addr);
      var info := FdInfo.UpdateBufferInfo(fdInfo);
      this.size, this.heapName, this.bufferName := info.value.size, info.value.heapName, info.value.bufferName;
      new;
      ghost var s := process.state;
      StepConserves(process.state, Open(id, helper));
      process.Do(Open(id, helper));
      StepConserves(process.state, Fetch(id, fd));
      process.Do(Fetch(id, fd));
      StepConserves(process.state, CloseHelper(id));
      process.Do(CloseHelper(id));
      StepConserves(process.state, Map(id, addr, size));
      process.Do(Map(id, addr, size));
      assert s.fds[helper := HelperOf(id)][fd := BufferOf(id)] - {helper} == s.fds[fd := BufferOf(id)];
      IsHeld(process.state, id);
    }

    // The descriptor is closed before the mapping goes; neither happens twice, and
    // neither happens at descriptor 0.
    method Destroy(process: Process)
      requires Conserved(process.state) && Is(process.state)
      modifies this, process
      ensures Conserved(process.state) && Is(process.state)
      ensures id in process.state.objects && process.state.objects[id].destroyed
      ensures
        if old(dmaBufFd) > 0 then
          && process.state.fds == old(process.state.fds) - {old(dmaBufFd)}
          && process.state.maps == old(process.state.maps) - {old(buffer.value)}
          && process.state.objects[id].stage.Dead?
        else
          process.state.fds == old(process.state.fds) && process.state.maps == old(process.state.maps)
    {
      hide Conserved;
      StepConserves(process.state, Step.Destroy(id));
      process.Do(Step.Destroy(id));
      if dmaBufFd <= 0 {
        IsHeld(process.state, id);
        return;
      }
      dmaBufFd := -1;
      if buffer.Some? {
        StepConserves(process.state, Unmap(id));
        process.Do(Unmap(id));
      }
      buffer := None;
      size := 0;
      heapName := "";
      bufferName := "";
      IsHeld(process.state, id);
    }
  }

  lemma IsHeld(s: State, id: nat)
    requires Conserved(s) && id in s.objects
    ensures Held(s.objects[id], id, s.fds, s.maps)
  {
  }
}
