// Info files: a publisher advertises itself by a file in its topic's directory
// whose name carries its pid and the descriptor of its info buffer.
module InfoFileName {
  import opened Wrappers
  import opened Text
  import opened TopicName

  const BASE_PATH := "/dev/shm/.dps/"

  function InfoName(pid: nat, fd: nat): string {
    [SERVICE] + Decimal(pid) + ([SERVICE] + Decimal(fd))
  }

  // The info file of a publisher of a topic.
  function InfoPath(topic: string, pid: nat, fd: nat): string {
    BASE_PATH + (topic + [SLASH] + InfoName(pid, fd))
  }

  // ---------- The subscriber's side ----------

  method SplitAt(s: string, separator: char) returns (output: seq<string>)
    ensures output == Split(s, separator)
  {
    hide Split;
    output := [];
    var prevPos, pos := 0, 0;
    assert s[0..] == s;
    pos := FindFrom(s, separator, pos);
    while pos < |s|
      invariant 0 <= prevPos <= pos <= |s|
      invariant pos == FindFrom(s, separator, prevPos)
      invariant Split(s, separator) == output + Split(s[prevPos..], separator)
      decreases |s| - pos
    {
      var substring := s[prevPos..pos];
      CutHere(s, separator, prevPos, pos);
      MoveFirst(output, substring, Split(s[pos + 1..], separator));
      output := output + [substring];
      pos := pos + 1;
      prevPos := pos;
      pos := FindFrom(s, separator, pos);
    }
    SplitSingle(s[prevPos..], separator);
    output := output + [s[prevPos..]];
  }

  lemma CutHere(s: string, sep: char, prev: nat, pos: nat)
    requires prev <= pos < |s| && pos == FindFrom(s, sep, prev)
    ensures Split(s[prev..], sep) == [s[prev..pos]] + Split(s[pos + 1..], sep)
  {
    hide Split;
    assert s[prev..] == s[prev..pos] + [sep] + s[pos + 1..];
    SplitUnfold(s[prev..pos], sep, s[pos + 1..]);
  }

  lemma MoveFirst(a: seq<string>, x: string, b: seq<string>)
    ensures a + ([x] + b) == (a + [x]) + b
  {
  }

  // The pid and descriptor in a file name; None where the decoder indexes a part
  // that is not there or reads one that is not a 32-bit number.
  function Decoded(name: string): Option<(int, int)> {
    var parts := Split(name, SERVICE);
    if |parts| < 3 then None
    else
      match (Stoi(parts[1]), Stoi(parts[2]))
      case (Some(pid), Some(fd)) => Some((pid, fd))
      case _ => None
  }

  method Decode(fileInfo: string) returns (r: Option<(int, int)>)
    ensures r == Decoded(fileInfo)
  {
    var values := SplitAt(fileInfo, SERVICE);
    if |values| < 3 {
      return None;
    }
    var pid, fd := Stoi(values[1]), Stoi(values[2]);
    if pid.None? || fd.None? {
      return None;
    }
    return Some((pid.value, fd.value));
  }

  // ---------- Round trip ----------

  lemma DigitsAreFree(n: nat, c: char)
    requires !IsDigit(c)
    ensures c !in Decimal(n)
  {
  }

  lemma PartsOfInfoName(pid: nat, fd: nat)
    ensures Split(InfoName(pid, fd), SERVICE) == ["", Decimal(pid), Decimal(fd)]
  {
    hide Split, Decimal;
    DigitsAreFree(pid, SERVICE);
    DigitsAreFree(fd, SERVICE);
    assert InfoName(pid, fd) == "" + [SERVICE] + (Decimal(pid) + [SERVICE] + Decimal(fd));
    SplitUnfold("", SERVICE, Decimal(pid) + [SERVICE] + Decimal(fd));
    SplitUnfold(Decimal(pid), SERVICE, Decimal(fd));
    SplitSingle(Decimal(fd), SERVICE);
  }

  lemma StoiOfDecimal(n: nat)
    ensures Stoi(Decimal(n)) == if n < 0x8000_0000 then Some(n) else None
  {
    ParsePrinted(n);
  }

  // A printed name decodes to the numbers it was printed from, exactly when both are
  // 32-bit ints.
  lemma RoundTrip(pid: nat, fd: nat)
    ensures Decoded(InfoName(pid, fd)) == Some((pid, fd)) <==> pid < 0x8000_0000 && fd < 0x8000_0000
  {
    hide Split, Stoi, Decimal, InfoName;
    PartsOfInfoName(pid, fd);
    StoiOfDecimal(pid);
    StoiOfDecimal(fd);
  }

  lemma Injective(pid: nat, fd: nat, pid': nat, fd': nat)
    requires InfoName(pid, fd) == InfoName(pid', fd')
    ensures pid == pid' && fd == fd'
  {
    hide Split, Decimal, InfoName, Value;
    PartsOfInfoName(pid, fd);
    PartsOfInfoName(pid', fd');
    assert ["", Decimal(pid), Decimal(fd)][1] == ["", Decimal(pid'), Decimal(fd')][1];
    assert ["", Decimal(pid), Decimal(fd)][2] == ["", Decimal(pid'), Decimal(fd')][2];
    ValueOfDecimal(pid);
    ValueOfDecimal(pid');
    ValueOfDecimal(fd);
    ValueOfDecimal(fd');
  }

  // A directory made for a topic below never passes for an info file.
  lemma ComponentsAreNotInfoNames(topic: string, c: string)
    requires c in Components(topic)
    ensures Decoded(c) == None
    ensures forall pid: nat, fd: nat :: InfoName(pid, fd) != c
  {
    ComponentsAreClean(topic);
    SplitSingle(c, SERVICE);
    forall pid: nat, fd: nat ensures InfoName(pid, fd) != c {
      PartsOfInfoName(pid, fd);
    }
  }

  lemma NameHasNoSlash(pid: nat, fd: nat)
    ensures SLASH !in InfoName(pid, fd)
  {
    hide Decimal;
    DigitsAreFree(pid, SLASH);
    DigitsAreFree(fd, SLASH);
  }

  // Different publishers have different files.
  lemma PathInjective(topic: string, pid: nat, fd: nat, topic': string, pid': nat, fd': nat)
    requires InfoPath(topic, pid, fd) == InfoPath(topic', pid', fd')
    ensures topic == topic' && pid == pid' && fd == fd'
  {
    hide Split, Join, InfoName;
    var name, name' := InfoName(pid, fd), InfoName(pid', fd');
    var local, local' := topic + [SLASH] + name, topic' + [SLASH] + name';
    assert local == (BASE_PATH + local)[|BASE_PATH|..] == (BASE_PATH + local')[|BASE_PATH|..] == local';
    NameHasNoSlash(pid, fd);
    NameHasNoSlash(pid', fd');
    SplitOfConcat(topic, name);
    SplitOfConcat(topic', name');
    SplitSingle(name, SLASH);
    SplitSingle(name', SLASH);
    assert Split(topic, SLASH) + [name] == Split(topic', SLASH) + [name'];
    LastAndInit(Split(topic, SLASH), name, Split(topic', SLASH), name');
    Injective(pid, fd, pid', fd');
    JoinOfSplit(topic, SLASH);
    JoinOfSplit(topic', SLASH);
  }

  lemma LastAndInit(a: seq<string>, x: string, b: seq<string>, y: string)
    requires a + [x] == b + [y]
    ensures a == b && x == y
  {
    var s := a + [x];
    assert s[|s| - 1] == x && s[|s| - 1] == y;
    assert a == s[..|s| - 1] == b;
  }

  // The info file of descriptor 5 of process 10, for the topic "camera".
  lemma PathAsPrinted()
    ensures InfoPath("camera", 10, 5) == "/dev/shm/.dps/camera/\\10\\5"
  {
    assert Decimal(1) == "1" && Decimal(5) == "5";
    assert Decimal(10) == "10";
  }

  // What follows a third backslash does not count.
  lemma MoreParts(pid: nat, fd: nat, rest: string)
    requires pid < 0x8000_0000 && fd < 0x8000_0000
    ensures Decoded(InfoName(pid, fd) + ([SERVICE] + rest)) == Some((pid, fd))
  {
    hide Split, Stoi, Decimal;
    DigitsAreFree(pid, SERVICE);
    DigitsAreFree(fd, SERVICE);
    var tail := Decimal(fd) + [SERVICE] + rest;
    assert InfoName(pid, fd) + ([SERVICE] + rest) == "" + [SERVICE] + (Decimal(pid) + [SERVICE] + tail);
    SplitUnfold("", SERVICE, Decimal(pid) + [SERVICE] + tail);
    SplitUnfold(Decimal(pid), SERVICE, tail);
    SplitUnfold(Decimal(fd), SERVICE, rest);
    StoiOfDecimal(pid);
    StoiOfDecimal(fd);
  }

  // A name without two backslashes, or without a number behind one of them, is refused.
  lemma Refused(name: string)
    requires |Split(name, SERVICE)| < 3 || (exists k :: 1 <= k <= 2 && NoDigit(Split(name, SERVICE)[k]))
    ensures Decoded(name) == None
  {
    hide Split, ParseNumeral;
    var parts := Split(name, SERVICE);
    if |parts| >= 3 {
      var k :| 1 <= k <= 2 && NoDigit(parts[k]);
      NeedsDigit(parts[k]);
    }
  }

  predicate NoDigit(s: string) {
    forall i | 0 <= i < |s| :: !IsDigit(s[i])
  }
}
