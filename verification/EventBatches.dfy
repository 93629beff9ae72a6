// The bytes of a batch of events, and what the walk over them comes to: the same as
// taking the events one by one.
module EventBatches {
  import opened Wrappers
  import opened PublisherWorld
  import opened Discovery
  import Bytes
  import InotifyBatch
  import Text
  import opened InfoFileName

  function FileName(n: Handle): string {
    InfoName(n.pid, n.fd)
  }

  // The record the kernel writes for an event: IN_CLOSE_WRITE, IN_DELETE, IN_DELETE_SELF with
  // or without IN_ISDIR, IN_IGNORED.
  ghost predicate Represents(r: InotifyBatch.Record, e: Event) {
    match e
    case CloseWrite(n) => r.mask == 0x8 && Bears(r, n)
    case Delete(n) => r.mask == 0x200 && Bears(r, n)
    case DeleteSelf => (r.mask == 0x400 || r.mask == 0x4000_0400) && r.name == []
    case Ignored => r.mask == 0x8000 && r.name == []
  }

  ghost predicate Bears(r: InotifyBatch.Record, n: Handle) {
    exists padding: nat :: r.name == Stored(n, padding)
  }

  // An info file's name as the kernel stores it.
  function Stored(n: Handle, padding: nat): seq<Bytes.byte> {
    NameIsPlain(n);
    InotifyBatch.StoredName(FileName(n), padding)
  }

  lemma NameIsPlain(n: Handle)
    ensures forall i | 0 <= i < |FileName(n)| :: 0 < FileName(n)[i] as int < 256
  {
    hide Text.Decimal;
  }

  function AttachedName(sub: Subscriber): Option<string> {
    if sub.attached.None? then None else Some(FileName(sub.attached.value.name))
  }

  ghost predicate AllRepresent(records: seq<InotifyBatch.Record>, events: seq<Event>) {
    |records| == |events| && forall i | 0 <= i < |records| :: Represents(records[i], events[i])
  }

  // An event's record means to the walk what the event means to the subscriber, and the
  // file name in it decodes to the publisher's pid and descriptor.
  lemma RecordMeans(r: InotifyBatch.Record, e: Event)
    requires Represents(r, e)
    ensures InotifyBatch.Restarts(r) <==> e.DeleteSelf? || e.Delete?
    ensures InotifyBatch.Announces(r) <==> e.CloseWrite?
    ensures e.CloseWrite? || e.Delete? ==>
              && InotifyBatch.CName(r.name) == FileName(e.name)
              && Decoded(InotifyBatch.CName(r.name)) == Some((e.name.pid as int, e.name.fd as int))
  {
    hide InfoName, Decoded, InotifyBatch.CName, InotifyBatch.StoredName, InotifyBatch.Restarts, InotifyBatch.Announces;
    InotifyBatch.MasksMean(r);
    if e.CloseWrite? || e.Delete? {
      var padding: nat :| r.name == Stored(e.name, padding);
      NameIsPlain(e.name);
      InotifyBatch.CNameOfStored(FileName(e.name), padding);
      RoundTrip(e.name.pid, e.name.fd);
    }
  }

  // What the walk makes of its first record.
  lemma FirstRecord(records: seq<InotifyBatch.Record>, attached: Option<string>, succeeds: bool)
    requires records != []
    ensures
      var r, rest := records[0], records[1..];
      if InotifyBatch.Restarts(r) then
        InotifyBatch.OutcomeOf(records, attached.Some?, succeeds) == InotifyBatch.Restarted
      else if !InotifyBatch.Announces(r) || attached.Some? then
        && InotifyBatch.OutcomeOf(records, attached.Some?, succeeds)
        == InotifyBatch.OutcomeOf(rest, attached.Some?, succeeds)
        && InotifyBatch.AttachedAfter(records, attached, succeeds)
        == InotifyBatch.AttachedAfter(rest, attached, succeeds)
      else if succeeds then
        && InotifyBatch.OutcomeOf(records, false, true) == InotifyBatch.OutcomeOf(rest, true, true)
        && InotifyBatch.AttachedAfter(records, attached, true)
        == InotifyBatch.AttachedAfter(rest, Some(InotifyBatch.CName(r.name)), true)
      else InotifyBatch.OutcomeOf(records, false, false) == InotifyBatch.Failed
  {
    hide InotifyBatch.CName;
  }

  // A subscriber that is attached makes no attempt.
  lemma NoAttempt(records: seq<InotifyBatch.Record>, attached: Option<string>, succeeds: bool)
    requires attached.Some?
    ensures InotifyBatch.OutcomeOf(records, true, succeeds) == InotifyBatch.OutcomeOf(records, true, true)
    ensures InotifyBatch.AttachedAfter(records, attached, succeeds) ==
        InotifyBatch.AttachedAfter(records, attached, true)
  {
  }

  // The steps of a walk over one batch, with others' in between.
  predicate Walking(steps: seq<SystemStep>) {
    forall i | 0 <= i < |steps| :: steps[i].Outside? || steps[i].NextEvent?
  }

  // Whatever happens between two records, the walk over a batch's bytes ends as the events
  // taken one by one do: `succeeds` is the answer to the one attempt to attach, if it came
  // to one.
  lemma {:induction false} WalkAgrees(s: System, steps: seq<SystemStep>, records: seq<InotifyBatch.Record>)
    returns (succeeds: bool)
    requires s.sub.mode.Looping? && AllRepresent(records, s.sub.batch) && Proceeds(s, steps) && Walking(steps)
    requires Finally(s, steps).sub.mode.Looping? ==> Finally(s, steps).sub.batch == []
    ensures
      var after := Finally(s, steps).sub;
      match InotifyBatch.OutcomeOf(records, s.sub.attached.Some?, succeeds)
      case Failed => after.mode.Crashed?
      case Restarted => after == Discovery.Restarted(s.sub)
      case Finished =>
        && after.mode.Looping? && after.batch == []
        && AttachedName(after) == InotifyBatch.AttachedAfter(records, AttachedName(s.sub), succeeds)
    decreases |steps|
  {
    hide Next, Enabled, NoticeOf, Attach, InfoName, Decoded, Represents, InotifyBatch.CName;
    hide InotifyBatch.OutcomeOf, InotifyBatch.AttachedAfter, InotifyBatch.Restarts, InotifyBatch.Announces;
    if steps == [] {
      succeeds := true;
      NoRecords(records, AttachedName(s.sub));
    } else {
      var next := Succ(s, steps[0]);
      if steps[0].Outside? {
        succeeds := WalkAgrees(next, steps[1..], records);
      } else {
        RecordMeans(records[0], s.sub.batch[0]);
        if next.sub.mode.Looping? {
          succeeds := WalkAgrees(next, steps[1..], records[1..]);
          if s.sub.batch[0].CloseWrite? {
            AttachName(s.world.fds, s.sub.batch[0].name, steps[0].lucky);
            NoAttempt(records[1..], AttachedName(next.sub), succeeds);
            succeeds := true;
          }
        } else {
          succeeds := false;
          StaysEnded(next, steps[1..]);
        }
        FirstRecord(records, AttachedName(s.sub), succeeds);
      }
    }
  }

  lemma NoRecords(records: seq<InotifyBatch.Record>, attached: Option<string>)
    requires records == []
    ensures InotifyBatch.OutcomeOf(records, attached.Some?, true) == InotifyBatch.Finished
    ensures InotifyBatch.AttachedAfter(records, attached, true) == attached
  {
  }

  // A subscriber that started over or ended takes no more events.
  lemma {:induction false} StaysEnded(s: System, steps: seq<SystemStep>)
    requires Proceeds(s, steps) && Walking(steps)
    requires s.sub.mode.Crashed? || s.sub == Discovery.Restarted(s.sub)
    ensures Finally(s, steps).sub.mode.Crashed? <==> s.sub.mode.Crashed?
    ensures !s.sub.mode.Crashed? ==> Finally(s, steps).sub == s.sub
    decreases |steps|
  {
    hide Next, Enabled, NoticeOf, Attach;
    if steps != [] {
      StaysEnded(Succ(s, steps[0]), steps[1..]);
    }
  }
}
