// The files of the publishers that name one file per buffer, and the sweep that
// removes all files of a process when it ends.  The separator is a macro the
// sources leave undefined: here any string that does not start with a digit.
module PidSweep {
  import opened Text

  predicate IsSeparator(sep: string) {
    sep != "" && !IsDigit(sep[0])
  }

  // The file of one buffer.
  function BufferFile(pid: nat, fd: nat, index: nat, queueSize: nat, sep: string): string {
    Decimal(pid) + (sep + (Decimal(fd) + (sep + (Decimal(index) + (sep + Decimal(queueSize))))))
  }

  // The files of a publisher whose buffers have these descriptors.
  function FilesOf(pid: nat, fds: seq<nat>, queueSize: nat, sep: string): set<string> {
    set i | 0 <= i < |fds| :: BufferFile(pid, fds[i], i, queueSize, sep)
  }

  // ---------- The sweep ----------

  // What a walk over the directories meets.
  datatype Entry = Entry(directory: string, name: string, regular: bool)

  predicate Doomed(pid: nat, sep: string, e: Entry) {
    e.regular && Decimal(pid) + sep <= e.name
  }

  // The entries a sweep leaves.
  function Survivors(pid: nat, sep: string, entries: seq<Entry>): seq<Entry> {
    if entries == [] then []
    else (if Doomed(pid, sep, entries[0]) then [] else [entries[0]]) + Survivors(pid, sep, entries[1..])
  }

  method Sweep(pid: nat, sep: string, entries: seq<Entry>) returns (kept: seq<Entry>)
    ensures kept == Survivors(pid, sep, entries)
  {
    hide Survivors, Doomed;
    var pidStart := Decimal(pid) + sep;
    kept := [];
    assert entries[0..] == entries;
    for i := 0 to |entries|
      invariant Survivors(pid, sep, entries) == kept + Survivors(pid, sep, entries[i..])
    {
      var e := entries[i];
      SweepStep(pid, sep, entries, i, kept);
      if !e.regular {
        kept := kept + [e];
        continue;
      }
      if |pidStart| > |e.name| {
        kept := kept + [e];
        continue;
      }
      if e.name[..|pidStart|] != pidStart {
        kept := kept + [e];
        continue;
      }
    }
    NoneSurvive(pid, sep, entries[|entries|..]);
  }

  lemma SweepStep(pid: nat, sep: string, entries: seq<Entry>, i: nat, kept: seq<Entry>)
    requires i < |entries|
    ensures
      var e, start := entries[i], Decimal(pid) + sep;
      kept + Survivors(pid, sep, entries[i..])
      == (if e.regular && |start| <= |e.name| && e.name[..|start|] == start then kept else kept + [e])
         + Survivors(pid, sep, entries[i + 1..])
  {
    hide Decimal;
    assert entries[i..][1..] == entries[i + 1..];
  }

  lemma NoneSurvive(pid: nat, sep: string, entries: seq<Entry>)
    requires entries == []
    ensures Survivors(pid, sep, entries) == []
  {
  }

  lemma {:induction false} SurvivorsAre(pid: nat, sep: string, entries: seq<Entry>, e: Entry)
    ensures e in Survivors(pid, sep, entries) <==> e in entries && !Doomed(pid, sep, e)
    decreases |entries|
  {
    if entries != [] {
      SurvivorsAre(pid, sep, entries[1..], e);
    }
  }

  // Directories stay, and so does every file whose name does not start with the pid and the
  // separator.
  lemma Spared(pid: nat, sep: string, entries: seq<Entry>, e: Entry)
    requires e in entries
    ensures e !in Survivors(pid, sep, entries) <==> e.regular && exists rest :: e.name == Decimal(pid) + (sep + rest)
  {
    hide Decimal, Survivors;
    SurvivorsAre(pid, sep, entries, e);
    StartsWith(Decimal(pid), sep, e.name);
  }

  lemma StartsWith(a: string, sep: string, s: string)
    ensures a + sep <= s <==> exists rest :: s == a + (sep + rest)
  {
    var start := a + sep;
    if start <= s {
      var rest := s[|start|..];
      assert s == start + rest == a + (sep + rest);
    }
    if rest :| s == a + (sep + rest) {
      assert s == start + rest;
    }
  }

  // The file of buffer 0 of 3, descriptor 5, of process 12.
  lemma FileAsPrinted()
    ensures BufferFile(12, 5, 0, 3, "-") == "12-5-0-3"
  {
    assert Decimal(1) == "1" && Decimal(5) == "5" && Decimal(0) == "0" && Decimal(3) == "3";
    assert Decimal(12) == "12";
  }

  // ---------- Which files a sweep takes ----------

  // Two numerals that a non-digit follows are equal when one string starts with the
  // other.
  lemma PrefixSameNumber(n: nat, m: nat, sep: string, rest: string)
    requires IsSeparator(sep)
    ensures Decimal(n) + sep <= Decimal(m) + (sep + rest) <==> n == m
  {
    var a, b := Decimal(n), Decimal(m);
    var s, t := a + sep, b + (sep + rest);
    if s <= t {
      assert forall k | 0 <= k < |s| :: s[k] == t[k];
      assert s[|a|] == sep[0] && t[|b|] == sep[0];
      assert |a| >= |b|;
      assert |a| <= |b|;
      assert a == s[..|a|] == t[..|b|] == b;
      ValueOfDecimal(n);
      ValueOfDecimal(m);
    }
    if n == m {
      assert t == s + rest;
    }
  }

  // A buffer file is swept exactly by the process whose pid it names.
  lemma SweepsOwnFiles(pid: nat, owner: nat, fd: nat, index: nat, queueSize: nat, sep: string, directory: string)
    requires IsSeparator(sep)
    ensures Doomed(pid, sep, Entry(directory, BufferFile(owner, fd, index, queueSize, sep), true)) <==> pid == owner
  {
    PrefixSameNumber(pid, owner, sep, Decimal(fd) + (sep + (Decimal(index) + (sep + Decimal(queueSize)))));
  }

  // So after a sweep of any tree, no file of the process is left, whether or not its
  // publishers cleaned up, and every file of the other processes is.
  lemma SweepExact(pid: nat, sep: string, entries: seq<Entry>, directory: string, owner: nat, fds: seq<nat>,
    queueSize: nat, file: string)
    requires IsSeparator(sep) && file in FilesOf(owner, fds, queueSize, sep)
    ensures
      var e := Entry(directory, file, true);
      e in Survivors(pid, sep, entries) <==> e in entries && owner != pid
  {
    var e := Entry(directory, file, true);
    var i :| 0 <= i < |fds| && file == BufferFile(owner, fds[i], i, queueSize, sep);
    SweepsOwnFiles(pid, owner, fds[i], i, queueSize, sep, directory);
    SurvivorsAre(pid, sep, entries, e);
  }

  lemma PeelNumber(n: nat, m: nat, sep: string, a: string, b: string)
    requires IsSeparator(sep) && Decimal(n) + (sep + a) == Decimal(m) + (sep + b)
    ensures n == m && a == b
  {
    var s, t := Decimal(n) + (sep + a), Decimal(m) + (sep + b);
    assert Decimal(n) + sep <= t by {
      assert s == (Decimal(n) + sep) + a;
    }
    PrefixSameNumber(n, m, sep, b);
    var start := Decimal(n) + sep;
    assert s == start + a && t == start + b;
    assert a == s[|start|..] == t[|start|..] == b;
  }

  // A name tells its four numbers apart.
  lemma BufferFileInjective(pid: nat, fd: nat, index: nat, queueSize: nat,
                            pid': nat, fd': nat, index': nat, queueSize': nat, sep: string)
    requires IsSeparator(sep)
    ensures BufferFile(pid, fd, index, queueSize, sep) == BufferFile(pid', fd', index', queueSize', sep)
       <==> pid == pid' && fd == fd' && index == index' && queueSize == queueSize'
  {
    if BufferFile(pid, fd, index, queueSize, sep) == BufferFile(pid', fd', index', queueSize', sep) {
      var rest, rest' := Decimal(index) + (sep + Decimal(queueSize)), Decimal(index') + (sep + Decimal(queueSize'));
      PeelNumber(pid, pid', sep, Decimal(fd) + (sep + rest), Decimal(fd') + (sep + rest'));
      PeelNumber(fd, fd', sep, rest, rest');
      PeelNumber(index, index', sep, Decimal(queueSize), Decimal(queueSize'));
      ValueOfDecimal(queueSize);
      ValueOfDecimal(queueSize');
    }
  }

  // ---------- The publishers of one process and topic ----------

  // A buffer: its descriptor, and its place in a queue of some length.
  datatype Buffer = Buffer(fd: nat, index: nat, queueSize: nat) {
    function Name(pid: nat, sep: string): string {
      BufferFile(pid, fd, index, queueSize, sep)
    }
  }

  // What a process has open, and of that what the publisher in question has; the regular
  // files in the topic's directory; and the buffers that its other publishers have made files
  // for.
  datatype State = State(open: set<nat>, own: set<nat>, files: set<string>, made: set<Buffer>)

  // Another publisher is handed a descriptor, or makes the file of a buffer it was handed.
  datatype Move = Hand(fd: nat) | Make(buffer: Buffer)

  predicate CanMove(s: State, m: Move) {
    match m
    case Hand(fd) => fd !in s.open
    case Make(b) => b.fd in s.open && b.fd !in s.own && b !in s.made
  }

  function Moved(s: State, pid: nat, sep: string, m: Move): State {
    match m
    case Hand(fd) => s.(open := s.open + {fd})
    case Make(b) => s.(files := s.files + {b.Name(pid, sep)}, made := s.made + {b})
  }

  predicate CanMoveAll(s: State, pid: nat, sep: string, moves: seq<Move>)
    decreases |moves|
  {
    moves == [] || (CanMove(s, moves[0]) && CanMoveAll(Moved(s, pid, sep, moves[0]), pid, sep, moves[1..]))
  }

  function MovedAll(s: State, pid: nat, sep: string, moves: seq<Move>): State
    decreases |moves|
  {
    if moves == [] then s else MovedAll(Moved(s, pid, sep, moves[0]), pid, sep, moves[1..])
  }

  function Closed(s: State, fd: nat): State {
    s.(open := s.open - {fd}, own := s.own - {fd})
  }

  function Removed(s: State, file: string): State {
    s.(files := s.files - {file})
  }

  // A cleanup: of which process and with which separator, the publisher's descriptors and
  // queue size, and what the others do between each close and the removal of that file.
  datatype Cleanup = Cleanup(pid: nat, sep: string, fds: seq<nat>, queueSize: nat, others: seq<seq<Move>>) {
    ghost predicate Valid() {
      IsSeparator(sep) && |others| == |fds| && forall i, j | 0 <= i < j < |fds| :: fds[i] != fds[j]
    }

    function Own(i: nat): Buffer
      requires i < |fds|
    {
      Buffer(fds[i], i, queueSize)
    }

    // After n rounds, each of which closes a descriptor and then removes the file of that
    // buffer,
    function Cleaned(s: State, n: nat): State
      requires n <= |fds| == |others|
      decreases n, 0
    {
      if n == 0 then s else Removed(Meanwhile(s, n - 1), Own(n - 1).Name(pid, sep))
    }

    // and right before the removal of round i.
    function Meanwhile(s: State, i: nat): State
      requires i < |fds| == |others|
      decreases i, 1
    {
      MovedAll(Closed(Cleaned(s, i), fds[i]), pid, sep, others[i])
    }

    // The publisher has its descriptors, the others have made files for theirs only, and
    // everybody gets only what is free.
    ghost predicate Orderly(s: State) {
      && Valid() && s.own <= s.open && (forall i | 0 <= i < |fds| :: fds[i] in s.own)
      && Apart(s) && (forall b | b in s.made :: b.Name(pid, sep) in s.files)
      && (forall i | 0 <= i < |fds| :: CanMoveAll(Closed(Cleaned(s, i), fds[i]), pid, sep, others[i]))
    }

    // The removal of some round before n took this buffer's file along.
    ghost predicate Taken(s: State, n: nat, b: Buffer)
      requires n <= |fds| == |others|
    {
      exists i :: 0 <= i < n && b == Own(i) && b in Meanwhile(s, i).made
    }
  }

  // What the others have made files for is open, and not the publisher's.
  ghost predicate Apart(s: State) {
    forall b :: b in s.made ==> b.fd in s.open && b.fd !in s.own
  }

  class Topic {
    var state: State

    // Creates a file for each buffer; the kernel hands out the descriptors.
    method AllocateDmaBufs(pid: nat, given: seq<nat>, sep: string) returns (fds: seq<nat>)
      modifies this
      ensures fds == given
      ensures state.open == old(state.open) + set i | 0 <= i < |given| :: given[i]
      ensures state.own == old(state.own) + set i | 0 <= i < |given| :: given[i]
      ensures state.files == old(state.files) + FilesOf(pid, given, |given|, sep) && state.made == old(state.made)
    {
      hide BufferFile;
      var queueSize := |given|;
      fds := seq(queueSize, _ => 0);
      for i := 0 to queueSize
        invariant |fds| == queueSize && fds[..i] == given[..i] && state.made == old(state.made)
        invariant state.open == old(state.open) + set k | 0 <= k < i :: given[k]
        invariant state.own == old(state.own) + set k | 0 <= k < i :: given[k]
        invariant state.files == old(state.files) + set k | 0 <= k < i :: BufferFile(pid, given[k], k, queueSize, sep)
      {
        var fd := given[i];
        var file := BufferFile(pid, fd, i, queueSize, sep);
        state := State(state.open + {fd}, state.own + {fd}, state.files + {file}, state.made);
        fds := fds[i := fd];
      }
      assert fds == fds[..queueSize] && given == given[..queueSize];
    }

    // Closes each descriptor and then removes its file, while others move.
    method CleanupFilesystem(c: Cleanup)
      requires c.Orderly(state)
      modifies this
      ensures state == c.Cleaned(old(state), |c.fds|)
    {
      hide BufferFile, MovedAll, CanMoveAll, IsSeparator, Cleanup.Orderly, Cleanup.Cleaned, Cleanup.Meanwhile;
      AtFirst(c, state);
      for i := 0 to |c.fds|
        invariant state == c.Cleaned(old(state), i)
      {
        Round(c, old(state), i);
        state := Closed(state, c.fds[i]);
        Meanwhile(c, i);
        state := Removed(state, BufferFile(c.pid, c.fds[i], i, c.queueSize, c.sep));
      }
    }

    // What the others do.
    method Meanwhile(c: Cleanup, i: nat)
      requires i < |c.others|
      modifies this
      ensures state == MovedAll(old(state), c.pid, c.sep, c.others[i])
    {
      var moves := c.others[i];
      assert moves[0..] == moves;
      for k := 0 to |moves|
        invariant MovedAll(old(state), c.pid, c.sep, moves) == MovedAll(state, c.pid, c.sep, moves[k..])
      {
        assert moves[k..][0] == moves[k] && moves[k..][1..] == moves[k + 1..];
        state := Moved(state, c.pid, c.sep, moves[k]);
      }
    }
  }

  // Left alone, a cleanup closes the publisher's descriptors and removes its files, and
  // nothing else.
  lemma {:induction false} LeftAlone(c: Cleanup, s: State, n: nat)
    requires n <= |c.fds| == |c.others| && forall i | 0 <= i < n :: c.others[i] == []
    ensures
      var gone := set i | 0 <= i < n :: c.fds[i];
      c.Cleaned(s, n) ==
        State(s.open - gone, s.own - gone,
          s.files - (set i | 0 <= i < n :: BufferFile(c.pid, c.fds[i], i, c.queueSize, c.sep)), s.made)
    decreases n
  {
    hide BufferFile;
    if n > 0 {
      LeftAlone(c, s, n - 1);
    }
  }

  // While the others move, they keep what they have made, and each new file is there.
  lemma {:induction false} Moves(s: State, pid: nat, sep: string, moves: seq<Move>, b: Buffer)
    requires IsSeparator(sep) && CanMoveAll(s, pid, sep, moves) && Apart(s) && s.own <= s.open
    ensures
      var t := MovedAll(s, pid, sep, moves);
      && Apart(t) && t.own == s.own && t.own <= t.open
      && (b in s.made ==> b in t.made && (b.Name(pid, sep) in t.files <==> b.Name(pid, sep) in s.files))
      && (b in t.made && b !in s.made ==> b.Name(pid, sep) in t.files)
    decreases |moves|
  {
    hide BufferFile, IsSeparator;
    if moves != [] {
      var next := Moved(s, pid, sep, moves[0]);
      if moves[0].Make? {
        var m := moves[0].buffer;
        BufferFileInjective(pid, b.fd, b.index, b.queueSize, pid, m.fd, m.index, m.queueSize, sep);
      }
      Moves(next, pid, sep, moves[1..], b);
    }
  }

  lemma Round(c: Cleanup, s: State, i: nat)
    requires c.Orderly(s) && i < |c.fds| == |c.others|
    ensures IsSeparator(c.sep) && CanMoveAll(Closed(c.Cleaned(s, i), c.fds[i]), c.pid, c.sep, c.others[i])
    ensures c.Meanwhile(s, i) == MovedAll(Closed(c.Cleaned(s, i), c.fds[i]), c.pid, c.sep, c.others[i])
    ensures c.Cleaned(s, i + 1) == Removed(c.Meanwhile(s, i), c.Own(i).Name(c.pid, c.sep))
    ensures forall k | i < k < |c.fds| :: c.fds[k] != c.fds[i]
  {
    hide BufferFile, IsSeparator, CanMoveAll, MovedAll;
  }

  lemma AtFirst(c: Cleanup, s: State)
    requires c.Orderly(s)
    ensures |c.others| == |c.fds| && c.Cleaned(s, 0) == s
    ensures Apart(s) && s.own <= s.open && forall k | 0 <= k < |c.fds| :: c.fds[k] in s.own
  {
    hide BufferFile, IsSeparator, CanMoveAll, MovedAll;
  }

  // Descriptors whose round has not come are still the publisher's.
  lemma {:induction false} StillOwn(c: Cleanup, s: State, n: nat)
    requires c.Orderly(s) && n <= |c.fds| == |c.others|
    ensures
      var t := c.Cleaned(s, n);
      Apart(t) && t.own <= t.open && (forall k | n <= k < |c.fds| :: c.fds[k] in t.own)
    decreases n
  {
    hide BufferFile, IsSeparator, CanMoveAll, MovedAll, Cleanup.Orderly, Cleanup.Cleaned, Cleanup.Meanwhile;
    if n == 0 {
      AtFirst(c, s);
    } else {
      StillOwn(c, s, n - 1);
      Round(c, s, n - 1);
      Moves(Closed(c.Cleaned(s, n - 1), c.fds[n - 1]), c.pid, c.sep, c.others[n - 1], c.Own(n - 1));
    }
  }

  // What happens to a file in one round.
  lemma RoundFate(c: Cleanup, s: State, i: nat, b: Buffer)
    requires c.Orderly(s) && i < |c.fds| == |c.others|
    ensures
      var before, after := c.Cleaned(s, i), c.Cleaned(s, i + 1);
      && after.made == c.Meanwhile(s, i).made && (b in before.made ==> b in after.made)
      && (b in after.made ==>
            (b.Name(c.pid, c.sep) !in after.files <==>
               b == c.Own(i) || (b in before.made && b.Name(c.pid, c.sep) !in before.files)))
  {
    hide BufferFile, IsSeparator, CanMoveAll, MovedAll, Cleanup.Orderly, Cleanup.Cleaned, Cleanup.Meanwhile;
    StillOwn(c, s, i);
    Round(c, s, i);
    Moves(Closed(c.Cleaned(s, i), c.fds[i]), c.pid, c.sep, c.others[i], b);
    var own := c.Own(i);
    BufferFileInjective(c.pid, b.fd, b.index, b.queueSize, c.pid, own.fd, own.index, own.queueSize, c.sep);
  }

  lemma {:induction false} MadeForGood(c: Cleanup, s: State, i: nat, n: nat, b: Buffer)
    requires c.Orderly(s) && i < n <= |c.fds| == |c.others|
    ensures b in c.Meanwhile(s, i).made ==> b in c.Cleaned(s, n).made
    decreases n
  {
    hide Cleanup.Orderly, Cleanup.Cleaned, Cleanup.Meanwhile, BufferFile;
    RoundFate(c, s, n - 1, b);
    if i < n - 1 {
      MadeForGood(c, s, i, n - 1, b);
    }
  }

  // A file that others have made is gone exactly if it was taken along.
  lemma {:induction false} Fate(c: Cleanup, s: State, n: nat, b: Buffer)
    requires c.Orderly(s) && n <= |c.fds| == |c.others| && b in c.Cleaned(s, n).made
    ensures b.Name(c.pid, c.sep) !in c.Cleaned(s, n).files <==> c.Taken(s, n, b)
    decreases n
  {
    if n > 0 {
      hide Cleanup.Orderly, Cleanup.Cleaned, Cleanup.Meanwhile, BufferFile;
      var k := n - 1;
      RoundFate(c, s, k, b);
      if b in c.Cleaned(s, k).made {
        Fate(c, s, k, b);
      } else {
        forall i | 0 <= i < k ensures b !in c.Meanwhile(s, i).made {
          MadeForGood(c, s, i, k, b);
        }
      }
    }
  }

  // A cleanup closes before it removes.  So it takes the file of another publisher along,
  // made before the cleanup or during it, exactly when the descriptor just closed was handed
  // to that one for the same place in a queue of the same length, and it made its file before
  // the removal.
  lemma TakesAlong(c: Cleanup, s: State, b: Buffer)
    requires c.Orderly(s) && b in c.Cleaned(s, |c.fds|).made
    ensures
      b.Name(c.pid, c.sep) !in c.Cleaned(s, |c.fds|).files <==>
        exists i :: 0 <= i < |c.fds| && b == Buffer(c.fds[i], i, c.queueSize) && b in c.Meanwhile(s, i).made
    ensures b in s.made ==> b.Name(c.pid, c.sep) in c.Cleaned(s, |c.fds|).files
  {
    hide BufferFile, CanMoveAll, MovedAll;
    Fate(c, s, |c.fds|, b);
    if b in s.made {
      assert b.fd !in s.own;
      assert forall i | 0 <= i < |c.fds| :: c.fds[i] != b.fd;
    }
  }

  // And that can happen.
  lemma CanTakeAlong(pid: nat, sep: string) returns (c: Cleanup, s: State, b: Buffer)
    requires IsSeparator(sep)
    ensures c.pid == pid && c.sep == sep && c.Orderly(s)
    ensures b in c.Cleaned(s, |c.fds|).made && b.Name(pid, sep) !in c.Cleaned(s, |c.fds|).files
  {
    hide BufferFile, IsSeparator;
    b := Buffer(3, 0, 1);
    c := Cleanup(pid, sep, [3], 1, [[Hand(3), Make(b)]]);
    s := State({3}, {3}, FilesOf(pid, [3], 1, sep), {});
    assert c.Cleaned(s, 0) == s;
    HandAndMake(Closed(s, 3), pid, sep, b);
    assert c.Meanwhile(s, 0) == MovedAll(Closed(s, 3), pid, sep, [Hand(3), Make(b)]);
    assert c.Cleaned(s, 1) == Removed(c.Meanwhile(s, 0), b.Name(pid, sep));
  }

  lemma HandAndMake(s: State, pid: nat, sep: string, b: Buffer)
    requires b.fd !in s.open && b.fd !in s.own && b !in s.made
    ensures CanMoveAll(s, pid, sep, [Hand(b.fd), Make(b)])
    ensures b in MovedAll(s, pid, sep, [Hand(b.fd), Make(b)]).made
  {
    hide BufferFile;
    var moves, made := [Hand(b.fd), Make(b)], [Make(b)];
    var handed := Moved(s, pid, sep, moves[0]);
    var done := Moved(handed, pid, sep, made[0]);
    assert moves[1..] == made && made[1..] == [];
    assert CanMoveAll(done, pid, sep, made[1..]) && MovedAll(done, pid, sep, made[1..]) == done;
    assert CanMoveAll(handed, pid, sep, made) && MovedAll(handed, pid, sep, made) == done;
  }
}
