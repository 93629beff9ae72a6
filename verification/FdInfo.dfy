// Reading a buffer's size and names from its fdinfo text.
module FdInfo {
  import opened Wrappers
  import opened Text

  const NEWLINE := '\n'
  const COLON := ':'

  // ---------- Trimming ----------

  function TrimLeft(s: string): string {
    if s != "" && IsBlank(s[0]) then TrimLeft(s[1..]) else s
  }

  function TrimRight(s: string): string {
    if s != "" && IsBlank(s[|s| - 1]) then TrimRight(s[..|s| - 1]) else s
  }

  function Trimmed(s: string): string {
    TrimLeft(TrimRight(s))
  }

  // t is what is left of s without the blanks around it.
  ghost predicate IsCore(s: string, t: string) {
    && (t != "" ==> !IsBlank(t[0]) && !IsBlank(t[|t| - 1]))
    && exists a, b :: Blank(a) && Blank(b) && s == a + t + b
  }

  lemma {:induction false} TrimLeftParts(s: string) returns (a: string)
    ensures Blank(a) && s == a + TrimLeft(s)
    ensures TrimLeft(s) != "" ==> !IsBlank(TrimLeft(s)[0])
    decreases |s|
  {
    if s != "" && IsBlank(s[0]) {
      var a' := TrimLeftParts(s[1..]);
      a := [s[0]] + a';
    } else {
      a := "";
    }
  }

  lemma {:induction false} TrimRightParts(s: string) returns (b: string)
    ensures Blank(b) && s == TrimRight(s) + b
    ensures TrimRight(s) != "" ==> !IsBlank(TrimRight(s)[|TrimRight(s)| - 1])
    decreases |s|
  {
    if s != "" && IsBlank(s[|s| - 1]) {
      var b' := TrimRightParts(s[..|s| - 1]);
      b := b' + [s[|s| - 1]];
    } else {
      b := "";
    }
  }

  // Trimming gives the core,
  lemma TrimmedIsCore(s: string)
    ensures IsCore(s, Trimmed(s))
  {
    var b := TrimRightParts(s);
    var a := TrimLeftParts(TrimRight(s));
    var t := Trimmed(s);
    assert s == a + t + b;
    if t != "" {
      assert t[|t| - 1] == TrimRight(s)[|TrimRight(s)| - 1];
    }
  }

  // and there is only one.
  lemma CoreIsUnique(s: string, t: string)
    requires IsCore(s, t)
    ensures t == Trimmed(s)
  {
    TrimmedIsCore(s);
    var a, b :| Blank(a) && Blank(b) && s == a + t + b;
    var a', b' :| Blank(a') && Blank(b') && s == a' + Trimmed(s) + b';
    SameCore(s, a, t, b, a', Trimmed(s), b');
  }

  lemma SameCore(s: string, a: string, t: string, b: string, a': string, t': string, b': string)
    requires s == a + t + b && s == a' + t' + b'
    requires Blank(a) && Blank(b) && Blank(a') && Blank(b')
    requires t != "" ==> !IsBlank(t[0]) && !IsBlank(t[|t| - 1])
    requires t' != "" ==> !IsBlank(t'[0]) && !IsBlank(t'[|t'| - 1])
    ensures t == t'
  {
    OnlyBlanks(a, t, b);
    OnlyBlanks(a', t', b');
    if t != "" {
      assert s[|a|] == t[0] && s[|a| + |t| - 1] == t[|t| - 1];
      assert s[|a'|] == t'[0] && s[|a'| + |t'| - 1] == t'[|t'| - 1];
      assert forall k | 0 <= k < |a| :: s[k] == a[k];
      assert forall k | 0 <= k < |a'| :: s[k] == a'[k];
      assert |a| == |a'|;
      assert forall k | |a| + |t| <= k < |s| :: s[k] == b[k - |a| - |t|];
      assert forall k | |a'| + |t'| <= k < |s| :: s[k] == b'[k - |a'| - |t'|];
      assert |t| == |t'|;
      assert t == s[|a|..|a| + |t|];
      assert t' == s[|a|..|a| + |t|];
    }
  }

  lemma OnlyBlanks(a: string, t: string, b: string)
    requires Blank(a) && Blank(b) && (t != "" ==> !IsBlank(t[0]))
    ensures Blank(a + t + b) <==> t == ""
  {
    assert t != "" ==> (a + t + b)[|a|] == t[0];
  }

  method LTrim(s: string) returns (r: string)
    ensures r == TrimLeft(s)
  {
    var i := 0;
    while i < |s| && IsBlank(s[i])
      invariant 0 <= i <= |s|
      invariant TrimLeft(s[i..]) == TrimLeft(s)
    {
      assert s[i..][1..] == s[i + 1..];
      i := i + 1;
    }
    r := s[i..];
  }

  method RTrim(s: string) returns (r: string)
    ensures r == TrimRight(s)
  {
    var i := |s|;
    assert s[..i] == s;
    while i > 0 && IsBlank(s[i - 1])
      invariant 0 <= i <= |s|
      invariant TrimRight(s[..i]) == TrimRight(s)
    {
      assert s[..i][..i - 1] == s[..i - 1];
      i := i - 1;
    }
    r := s[..i];
  }

  method Trim(s: string) returns (r: string)
    ensures r == Trimmed(s)
    ensures IsCore(s, r)
  {
    r := RTrim(s);
    r := LTrim(r);
    TrimmedIsCore(s);
  }

  // ---------- The reader ----------

  datatype BufferInfo = BufferInfo(size: nat, heapName: string, bufferName: string)

  // What a line is about, and what it says; a line without a colon is both.
  function FieldName(line: string): string {
    Trimmed(line[..FindFrom(line, COLON, 0)])
  }

  function FieldValue(line: string): string {
    var i := FindFrom(line, COLON, 0);
    Trimmed(if i == |line| then line else line[i + 1..])
  }

  // One line; a size that is not a number is an exception.
  function ReadLine(info: BufferInfo, line: string): Option<BufferInfo> {
    var field, value := FieldName(line), FieldValue(line);
    if "size" <= field then
      match Stoul(value)
      case None => None
      case Some(n) => Some(info.(size := n))
    else if "exp_name" <= field then Some(info.(heapName := value))
    else if "name" <= field then Some(info.(bufferName := value))
    else Some(info)
  }

  function ReadLines(info: BufferInfo, lines: seq<string>): Option<BufferInfo>
    decreases |lines|
  {
    if lines == [] then Some(info)
    else
      match ReadLine(info, lines[0])
      case None => None
      case Some(next) => ReadLines(next, lines[1..])
  }

  // The lines getline yields: a final newline starts no further line.
  function Lines(text: string): seq<string>
    decreases |text|
  {
    if text == "" then []
    else
      var i := FindFrom(text, NEWLINE, 0);
      [text[..i]] + (if i == |text| then [] else Lines(text[i + 1..]))
  }

  const EMPTY := BufferInfo(0, "", "")

  // A buffer has a size; without one the reader gives up.
  function Read(text: string): Option<BufferInfo> {
    match ReadLines(EMPTY, Lines(text))
    case None => None
    case Some(info) => if info.size == 0 then None else Some(info)
  }

  // What one line adds to what is known.
  method ReadOneLine(info: BufferInfo, line: string) returns (r: Option<BufferInfo>)
    ensures r == ReadLine(info, line)
  {
    hide FindFrom, Trimmed, IsCore, Stoul;
    var colon := FindFrom(line, COLON, 0);
    var fieldName := Trim(line[..colon]);
    var fieldValue := Trim(if colon == |line| then line else line[colon + 1..]);
    r := Some(info);
    if "size" <= fieldName {
      var number := Stoul(fieldValue);
      r := if number.None? then None else Some(info.(size := number.value));
    } else if "exp_name" <= fieldName {
      r := Some(info.(heapName := fieldValue));
    } else if "name" <= fieldName {
      r := Some(info.(bufferName := fieldValue));
    }
  }

  method UpdateBufferInfo(text: string) returns (r: Option<BufferInfo>)
    ensures r == Read(text)
  {
    hide Lines, ReadLines, ReadLine, FindFrom;
    var info, pos := EMPTY, 0;
    assert text[0..] == text;
    while pos < |text|
      invariant 0 <= pos <= |text|
      invariant ReadLines(EMPTY, Lines(text)) == ReadLines(info, Lines(text[pos..]))
    {
      var end := FindFrom(text, NEWLINE, pos);
      var line := text[pos..end];
      NextLine(text, pos, end);
      pos := if end == |text| then end else end + 1;
      NextRead(info, line, Lines(text[pos..]));
      var next := ReadOneLine(info, line);
      if next.None? {
        return None;
      }
      info := next.value;
    }
    NoMoreLines(info, text[pos..]);
    return if info.size == 0 then None else Some(info);
  }

  lemma NextRead(info: BufferInfo, line: string, rest: seq<string>)
    ensures ReadLines(info, [line] + rest)
         == match ReadLine(info, line) case None => None case Some(next) => ReadLines(next, rest)
  {
    hide ReadLine;
    assert ([line] + rest)[1..] == rest;
  }

  lemma NoMoreLines(info: BufferInfo, text: string)
    requires text == ""
    ensures ReadLines(info, Lines(text)) == Some(info)
  {
  }

  lemma NextLine(text: string, pos: nat, end: nat)
    requires pos < |text| && end == FindFrom(text, NEWLINE, pos)
    ensures Lines(text[pos..]) == [text[pos..end]] + Lines(text[(if end == |text| then end else end + 1)..])
  {
    hide FindFrom, Lines;
    var rest := text[pos..];
    assert forall k | 0 <= k < |rest| :: rest[k] == text[pos + k];
    FoundAt(rest, NEWLINE, end - pos);
    FirstLine(rest, end - pos);
    assert rest[..end - pos] == text[pos..end];
    if end < |text| {
      assert rest[end - pos + 1..] == text[end + 1..];
    } else {
      assert text[end..] == "";
    }
  }

  lemma FirstLine(text: string, i: nat)
    requires text != "" && i == FindFrom(text, NEWLINE, 0)
    ensures Lines(text) == [text[..i]] + (if i == |text| then Lines("") else Lines(text[i + 1..]))
  {
    hide FindFrom;
  }

  lemma FoundAt(s: string, c: char, i: nat)
    requires i <= |s| && (forall k | 0 <= k < i :: s[k] != c) && (i < |s| ==> s[i] == c)
    ensures FindFrom(s, c, 0) == i
  {
  }

  // ---------- Round trip ----------

  function Labelled(name: string, value: string): string {
    name + [COLON] + ("\t" + value)
  }

  // Lines printed one by one.
  function Printed(lines: seq<string>): string {
    if lines == [] then "" else lines[0] + [NEWLINE] + Printed(lines[1..])
  }

  // A line, its newline, and what follows.
  lemma LineThenMore(line: string, rest: string)
    requires NEWLINE !in line
    ensures Lines(line + [NEWLINE] + rest) == [line] + Lines(rest)
  {
    hide FindFrom, Lines;
    var text, i := line + [NEWLINE] + rest, |line|;
    assert text[i] == NEWLINE;
    assert forall k | 0 <= k < i :: text[k] == line[k];
    FoundAt(text, NEWLINE, i);
    FirstLine(text, i);
    assert text[..i] == line && text[i + 1..] == rest;
  }

  lemma {:induction false} LinesOfPrinted(lines: seq<string>)
    requires FreeOf(lines, NEWLINE)
    ensures Lines(Printed(lines)) == lines
    decreases |lines|
  {
    if lines != [] {
      hide Lines;
      assert FreeOf(lines[1..], NEWLINE);
      LinesOfPrinted(lines[1..]);
      LineThenMore(lines[0], Printed(lines[1..]));
    }
  }

  lemma FieldsOfLabelled(name: string, value: string)
    requires COLON !in name
    ensures FieldName(Labelled(name, value)) == Trimmed(name)
    ensures FieldValue(Labelled(name, value)) == Trimmed(value)
  {
    hide Trimmed;
    var line := Labelled(name, value);
    var i := FindFrom(line, COLON, 0);
    assert line[|name|] == COLON;
    assert forall k | 0 <= k < |name| :: line[k] == name[k];
    assert i == |name| && line[..i] == name && line[i + 1..] == "\t" + value;
    TabIsTrimmed(value);
  }

  lemma TabIsTrimmed(value: string)
    ensures Trimmed("\t" + value) == Trimmed(value)
  {
    TrimmedIsCore(value);
    var a, b :| Blank(a) && Blank(b) && value == a + Trimmed(value) + b;
    assert "\t" + value == ("\t" + a) + Trimmed(value) + b;
    assert Blank("\t" + a);
    CoreIsUnique("\t" + value, Trimmed(value));
  }

  lemma TrimmedCore(t: string)
    requires t != "" ==> !IsBlank(t[0]) && !IsBlank(t[|t| - 1])
    ensures Trimmed(t) == t
  {
    assert Blank("") && t == "" + t + "";
    CoreIsUnique(t, t);
  }

  // A line about something else.
  predicate Unrelated(line: string) {
    var field := FieldName(line);
    !("size" <= field) && !("exp_name" <= field) && !("name" <= field)
  }

  ghost predicate Header(lines: seq<string>) {
    FreeOf(lines, NEWLINE) && forall k | 0 <= k < |lines| :: Unrelated(lines[k])
  }

  lemma {:induction false} SkipHeader(info: BufferInfo, header: seq<string>, rest: seq<string>)
    requires Header(header)
    ensures ReadLines(info, header + rest) == ReadLines(info, rest)
    decreases |header|
  {
    if header == [] {
      assert header + rest == rest;
    } else {
      assert (header + rest)[1..] == header[1..] + rest;
      SkipHeader(info, header[1..], rest);
    }
  }

  lemma ReadSize(info: BufferInfo, size: nat)
    requires size < 0x1_0000_0000_0000_0000
    ensures ReadLine(info, Labelled("size", Decimal(size))) == Some(info.(size := size))
  {
    FieldsOfLabelled("size", Decimal(size));
    TrimmedCore("size");
    TrimmedCore(Decimal(size));
    ParsePrinted(size);
  }

  lemma ReadHeap(info: BufferInfo, heap: string)
    ensures ReadLine(info, Labelled("exp_name", heap)) == Some(info.(heapName := Trimmed(heap)))
  {
    FieldsOfLabelled("exp_name", heap);
    TrimmedCore("exp_name");
  }

  lemma ReadName(info: BufferInfo, name: string)
    ensures ReadLine(info, Labelled("name", name)) == Some(info.(bufferName := Trimmed(name)))
  {
    FieldsOfLabelled("name", name);
    TrimmedCore("name");
  }

  // The text the kernel prints for a buffer, with any other lines around.
  function InfoText(a: seq<string>, size: nat, b: seq<string>, heap: string, c: seq<string>, name: string,
      d: seq<string>): string {
    Printed(a + ([Labelled("size", Decimal(size))] + (b + ([Labelled("exp_name", heap)]
      + (c + ([Labelled("name", name)] + d))))))
  }

  // The reader recovers the size and, up to blanks around them, the names; names may
  // contain colons.
  lemma RoundTrip(a: seq<string>, size: nat, b: seq<string>, heap: string, c: seq<string>, name: string, d: seq<string>)
    requires 0 < size < 0x1_0000_0000_0000_0000
    requires NEWLINE !in heap && NEWLINE !in name
    requires Header(a) && Header(b) && Header(c) && Header(d)
    ensures Read(InfoText(a, size, b, heap, c, name, d)) == Some(BufferInfo(size, Trimmed(heap), Trimmed(name)))
  {
    hide Trimmed, Decimal, ReadLine, Labelled, Printed, Lines;
    var s, h, n := Labelled("size", Decimal(size)), Labelled("exp_name", heap), Labelled("name", name);
    var lines := a + ([s] + (b + ([h] + (c + ([n] + d)))));
    PrintedLinesAreFree(size, heap, name);
    assert FreeOf(lines, NEWLINE);
    LinesOfPrinted(lines);
    SkipHeader(EMPTY, a, [s] + (b + ([h] + (c + ([n] + d)))));
    ReadSize(EMPTY, size);
    var sized := EMPTY.(size := size);
    NextRead(EMPTY, s, b + ([h] + (c + ([n] + d))));
    SkipHeader(sized, b, [h] + (c + ([n] + d)));
    ReadHeap(sized, heap);
    var heaped := sized.(heapName := Trimmed(heap));
    NextRead(sized, h, c + ([n] + d));
    SkipHeader(heaped, c, [n] + d);
    ReadName(heaped, name);
    var named := heaped.(bufferName := Trimmed(name));
    NextRead(heaped, n, d);
    SkipHeader(named, d, []);
    assert d + [] == d;
  }

  lemma PrintedLinesAreFree(size: nat, heap: string, name: string)
    requires NEWLINE !in heap && NEWLINE !in name
    ensures NEWLINE !in Labelled("size", Decimal(size))
    ensures NEWLINE !in Labelled("exp_name", heap)
    ensures NEWLINE !in Labelled("name", name)
  {
    hide Decimal;
    assert forall k | 0 <= k < |Decimal(size)| :: Decimal(size)[k] != NEWLINE;
  }

  // So what was printed is recovered exactly when the names have no blanks around.
  lemma RoundTripExact(a: seq<string>, size: nat, b: seq<string>, heap: string, c: seq<string>, name: string,
      d: seq<string>)
    requires 0 < size < 0x1_0000_0000_0000_0000
    requires NEWLINE !in heap && NEWLINE !in name
    requires Header(a) && Header(b) && Header(c) && Header(d)
    ensures Read(InfoText(a, size, b, heap, c, name, d)) == Some(BufferInfo(size, heap, name))
       <==> (heap != "" ==> !IsBlank(heap[0]) && !IsBlank(heap[|heap| - 1]))
            && (name != "" ==> !IsBlank(name[0]) && !IsBlank(name[|name| - 1]))
  {
    hide Read, InfoText, Trimmed;
    RoundTrip(a, size, b, heap, c, name, d);
    CoreOrNot(heap);
    CoreOrNot(name);
  }

  lemma CoreOrNot(t: string)
    ensures Trimmed(t) == t <==> (t != "" ==> !IsBlank(t[0]) && !IsBlank(t[|t| - 1]))
  {
    TrimmedIsCore(t);
    if t != "" ==> !IsBlank(t[0]) && !IsBlank(t[|t| - 1]) {
      TrimmedCore(t);
    }
  }

  // A line whose field starts with none of the three names is about something else.
  lemma OtherField(field: string, value: string)
    requires COLON !in field && NEWLINE !in field && NEWLINE !in value
    requires field != "" ==> !IsBlank(field[0]) && !IsBlank(field[|field| - 1])
    requires !("size" <= field) && !("exp_name" <= field) && !("name" <= field)
    ensures Header([Labelled(field, value)])
  {
    hide Trimmed;
    FieldsOfLabelled(field, value);
    TrimmedCore(field);
  }

  // So are the other lines of a buffer's fdinfo, and those of an event's.
  lemma KernelHeader(field: string, value: string)
    requires field in {"pos", "flags", "mnt_id", "ino", "count", "eventfd-count", "eventfd-id"} && NEWLINE !in value
    ensures Header([Labelled(field, value)])
  {
    assert field[0] in {'p', 'f', 'm', 'i', 'c', 'e'} && (field[0] == 'e' ==> field[1] == 'v');
    assert "exp_name"[1] == 'x';
    OtherField(field, value);
  }

  // ---------- Which lines count ----------

  lemma {:induction false} ReadOn(info: BufferInfo, a: seq<string>, b: seq<string>)
    ensures
      ReadLines(info, a + b) == match ReadLines(info, a) case None => None case Some(next) => ReadLines(next, b)
    decreases |a|
  {
    hide ReadLine;
    if a == [] {
      assert a + b == b;
    } else {
      assert (a + b)[0] == a[0] && (a + b)[1..] == a[1..] + b;
      match ReadLine(info, a[0]) {
        case None =>
        case Some(next) => ReadOn(next, a[1..], b);
      }
    }
  }

  // A text without a size is refused,
  lemma NoSizeFails(lines: seq<string>)
    requires Header(lines)
    ensures Read(Printed(lines)) == None
  {
    hide ReadLine, Lines, Printed;
    LinesOfPrinted(lines);
    SkipHeader(EMPTY, lines, []);
    assert lines + [] == lines;
  }

  // so whatever is accepted has one.
  lemma SizeIsPositive(text: string)
    ensures Read(text).Some? ==> Read(text).value.size > 0
  {
    hide ReadLines, Lines;
  }

  // Of several sizes the last one counts, whatever came before it, and 0 is none.
  lemma LastSizeCounts(a: seq<string>, size: nat, b: seq<string>)
    requires FreeOf(a, NEWLINE) && ReadLines(EMPTY, a).Some? && Header(b) && size < 0x1_0000_0000_0000_0000
    ensures
      Read(Printed(a + ([Labelled("size", Decimal(size))] + b))) ==
        if size == 0 then None else Some(ReadLines(EMPTY, a).value.(size := size))
  {
    hide ReadLine, Lines, Printed, Decimal, Labelled;
    var s := Labelled("size", Decimal(size));
    var before := ReadLines(EMPTY, a).value;
    PrintedLinesAreFree(size, "", "");
    assert FreeOf(a + ([s] + b), NEWLINE);
    LinesOfPrinted(a + ([s] + b));
    ReadOn(EMPTY, a, [s] + b);
    NextRead(before, s, b);
    ReadSize(before, size);
    SkipHeader(before.(size := size), b, []);
    assert b + [] == b;
  }

  // A size that is not a number is an exception, whatever else the text says.
  lemma BadSizeFails(a: seq<string>, value: string, b: seq<string>)
    requires FreeOf(a, NEWLINE) && FreeOf(b, NEWLINE) && NEWLINE !in value
    requires forall i | 0 <= i < |value| :: !IsDigit(value[i])
    ensures Read(Printed(a + ([Labelled("size", value)] + b))) == None
  {
    hide Lines, Printed, Trimmed, IsCore, ParseNumeral;
    var s := Labelled("size", value);
    assert FreeOf(a + ([s] + b), NEWLINE);
    LinesOfPrinted(a + ([s] + b));
    ReadOn(EMPTY, a, [s] + b);
    FieldsOfLabelled("size", value);
    TrimmedCore("size");
    TrimmedIsPart(value);
    NeedsDigit(Trimmed(value));
    if ReadLines(EMPTY, a).Some? {
      NextRead(ReadLines(EMPTY, a).value, s, b);
    }
  }

  lemma TrimmedIsPart(s: string)
    ensures forall i | 0 <= i < |Trimmed(s)| :: Trimmed(s)[i] in s
  {
    hide Trimmed;
    TrimmedIsCore(s);
    var a, b :| Blank(a) && Blank(b) && s == a + Trimmed(s) + b;
    forall i | 0 <= i < |Trimmed(s)| ensures Trimmed(s)[i] in s {
      assert s[|a| + i] == Trimmed(s)[i];
    }
  }

  // A field counts by how it starts.
  lemma PrefixCounts(info: BufferInfo, more: string, size: nat, name: string)
    requires COLON !in more && (more != "" ==> !IsBlank(more[|more| - 1])) && size < 0x1_0000_0000_0000_0000
    ensures ReadLine(info, Labelled("size" + more, Decimal(size))) == Some(info.(size := size))
    ensures ReadLine(info, Labelled("exp_name" + more, name)) == Some(info.(heapName := Trimmed(name)))
    ensures ReadLine(info, Labelled("name" + more, name)) == Some(info.(bufferName := Trimmed(name)))
  {
    hide Trimmed, Labelled, Decimal, FieldName, FieldValue, ParseNumeral;
    FieldsOfLabelled("size" + more, Decimal(size));
    FieldsOfLabelled("exp_name" + more, name);
    FieldsOfLabelled("name" + more, name);
    TrimmedCore("size" + more);
    TrimmedCore("exp_name" + more);
    TrimmedCore("name" + more);
    TrimmedCore(Decimal(size));
    ParsePrinted(size);
    assert ("exp_name" + more)[0] == 'e' && ("name" + more)[0] == 'n';
  }

  // A line without a colon is its own field and value.
  lemma NoColon(line: string)
    requires COLON !in line
    ensures FieldName(line) == FieldValue(line) == Trimmed(line)
  {
    hide Trimmed;
    assert line[..|line|] == line;
  }

  // A last line without a newline is a line.
  lemma {:induction false} LastLine(lines: seq<string>, last: string)
    requires FreeOf(lines, NEWLINE) && NEWLINE !in last && last != ""
    ensures Lines(Printed(lines) + last) == lines + [last]
    decreases |lines|
  {
    hide Lines, FindFrom;
    if lines == [] {
      assert Printed(lines) + last == last;
      OneLine(last);
    } else {
      assert FreeOf(lines[1..], NEWLINE);
      LastLine(lines[1..], last);
      assert Printed(lines) + last == lines[0] + [NEWLINE] + (Printed(lines[1..]) + last);
      LineThenMore(lines[0], Printed(lines[1..]) + last);
      assert lines + [last] == [lines[0]] + (lines[1..] + [last]);
    }
  }

  lemma OneLine(last: string)
    requires NEWLINE !in last && last != ""
    ensures Lines(last) == [last]
  {
    FoundAt(last, NEWLINE, |last|);
    FirstLine(last, |last|);
    assert last[..|last|] == last;
  }
}
