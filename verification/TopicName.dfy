// Topic names: the one-pass scanner that brings a name to its canonical form, and
// what that form means.
module TopicName {
  import opened Text

  const SERVICE := '\\'
  const SLASH := '/'

  // ---------- What a name means ----------

  // A name without the service characters.
  function DropService(s: string): (r: string)
    ensures forall k | 0 <= k < |r| :: r[k] != SERVICE
  {
    if s == "" then ""
    else
      var rest := DropService(s[1..]);
      if s[0] == SERVICE then rest else [s[0]] + rest
  }

  function NonEmpty(parts: seq<string>): (r: seq<string>)
    ensures forall k | 0 <= k < |r| :: r[k] != ""
  {
    if parts == [] then []
    else
      var rest := NonEmpty(parts[1..]);
      if parts[0] == "" then rest else [parts[0]] + rest
  }

  // The components a name denotes.
  function Components(s: string): (c: seq<string>)
    ensures forall k | 0 <= k < |c| :: c[k] != ""
  {
    NonEmpty(Split(DropService(s), SLASH))
  }

  // The canonical name of a topic.
  function Canonical(s: string): string {
    Join(Components(s), SLASH)
  }

  // The scanner looks at the last character it kept, so there has to be one.
  predicate Usable(s: string) {
    exists i :: 0 <= i < |s| && s[i] != SERVICE && s[i] != SLASH
  }

  // ---------- The scanner ----------

  method SimplifyTopicName(topicName: string) returns (r: string)
    requires Usable(topicName)
    ensures r == Canonical(topicName)
  {
    r := "";
    var onceSlash := false;
    var index := 0;
    NothingKept(Split("", SLASH));
    while index < |topicName|
      invariant 0 <= index <= |topicName|
      invariant Scanned(topicName[..index], r, onceSlash)
    {
      var c := topicName[index];
      ScanStep(topicName[..index], r, onceSlash, c);
      assert topicName[..index + 1] == topicName[..index] + [c];
      index := index + 1;
      if c == SERVICE {
        continue;
      }
      if c == SLASH {
        if !onceSlash && |r| > 0 {
          r := r + [c];
        }
        onceSlash := true;
      } else {
        r := r + [c];
        onceSlash := false;
      }
    }
    assert topicName[..index] == topicName;
    LastKept(topicName, r, onceSlash);
    if r[|r| - 1] == SLASH {
      r := r[..|r| - 1];
    }
  }

  // One character of the scan.
  function Scan(r: string, onceSlash: bool, c: char): (string, bool) {
    if c == SERVICE then (r, onceSlash)
    else if c == SLASH then (if !onceSlash && |r| > 0 then r + [c] else r, true)
    else (r + [c], false)
  }

  function LastOf(parts: seq<string>): string
    requires parts != []
  {
    parts[|parts| - 1]
  }

  // What the scanner has after reading s: the components so far, and a slash in
  // wait for the next one.
  ghost predicate Scanned(s: string, r: string, onceSlash: bool) {
    && (onceSlash <==> DropService(s) != "" && LastOf(Split(DropService(s), SLASH)) == "")
    && r == if onceSlash && Components(s) != [] then Canonical(s) + [SLASH] else Canonical(s)
  }

  lemma {:induction false} DropServiceConcat(a: string, b: string)
    ensures DropService(a + b) == DropService(a) + DropService(b)
    decreases |a|
  {
    if a == "" {
      assert a + b == b;
    } else {
      assert (a + b)[1..] == a[1..] + b;
      DropServiceConcat(a[1..], b);
    }
  }

  lemma {:induction false} NonEmptyConcat(a: seq<string>, b: seq<string>)
    ensures NonEmpty(a + b) == NonEmpty(a) + NonEmpty(b)
    decreases |a|
  {
    if a == [] {
      assert a + b == b;
    } else {
      assert (a + b)[1..] == a[1..] + b;
      NonEmptyConcat(a[1..], b);
    }
  }

  lemma {:induction false} JoinSnoc(parts: seq<string>, x: string)
    ensures Join(parts + [x], SLASH) == if parts == [] then x else Join(parts, SLASH) + [SLASH] + x
    decreases |parts|
  {
    if |parts| == 1 {
      assert (parts + [x])[1..] == [x];
    } else if |parts| > 1 {
      assert (parts + [x])[1..] == parts[1..] + [x];
      JoinSnoc(parts[1..], x);
    }
  }

  lemma {:induction false} JoinEmptyOnlyOfNone(parts: seq<string>)
    requires forall k | 0 <= k < |parts| :: parts[k] != ""
    ensures Join(parts, SLASH) == "" <==> parts == []
  {
  }

  // How one kept character changes the components.
  lemma PartsStep(parts: seq<string>, c: char)
    requires parts != []
    ensures c == SLASH ==> NonEmpty(Grown(parts, SLASH, c)) == NonEmpty(parts)
    ensures c != SLASH && LastOf(parts) == "" ==> NonEmpty(Grown(parts, SLASH, c)) == NonEmpty(parts) + [[c]]
    ensures c != SLASH && LastOf(parts) != "" ==>
              NonEmpty(parts) != [] && NonEmpty(Grown(parts, SLASH, c)) == Grown(NonEmpty(parts), SLASH, c)
  {
    var init, last := parts[..|parts| - 1], LastOf(parts);
    assert parts == init + [last];
    NonEmptyConcat(init, [last]);
    if c == SLASH {
      NonEmptyConcat(parts, [""]);
    } else {
      NonEmptyConcat(init, [last + [c]]);
      assert last == "" ==> last + [c] == [c];
    }
  }

  lemma ComponentsStep(s: string, c: char)
    ensures c == SERVICE ==> DropService(s + [c]) == DropService(s)
    ensures c != SERVICE ==> DropService(s + [c]) == DropService(s) + [c]
    ensures c != SERVICE ==> Split(DropService(s + [c]), SLASH) == Grown(Split(DropService(s), SLASH), SLASH, c)
  {
    DropServiceConcat(s, [c]);
    SplitSnoc(DropService(s), SLASH, c);
  }

  lemma ScanStep(s: string, r: string, onceSlash: bool, c: char)
    requires Scanned(s, r, onceSlash)
    ensures Scanned(s + [c], Scan(r, onceSlash, c).0, Scan(r, onceSlash, c).1)
  {
    hide Split, DropService, NonEmpty, Join;
    ComponentsStep(s, c);
    var parts := Split(DropService(s), SLASH);
    var cs := NonEmpty(parts);
    JoinEmptyOnlyOfNone(cs);
    if c != SERVICE {
      PartsStep(parts, c);
      if c != SLASH {
        if LastOf(parts) == "" {
          JoinSnoc(cs, [c]);
          if DropService(s) == "" {
            NothingKept(parts);
          }
        } else {
          JoinLastGrows(cs, c);
        }
      }
    }
  }

  lemma NothingKept(parts: seq<string>)
    ensures parts == Split("", SLASH) ==> NonEmpty(parts) == [] && Join([], SLASH) == ""
  {
    SplitSingle("", SLASH);
  }

  lemma {:induction false} JoinLastGrows(cs: seq<string>, c: char)
    requires cs != [] && c != SLASH
    ensures Join(Grown(cs, SLASH, c), SLASH) == Join(cs, SLASH) + [c]
    decreases |cs|
  {
    if |cs| > 1 {
      JoinLastGrows(cs[1..], c);
      assert Grown(cs, SLASH, c)[0] == cs[0] && Grown(cs, SLASH, c)[1..] == Grown(cs[1..], SLASH, c);
      var before := cs[0] + [SLASH];
      assert before + (Join(cs[1..], SLASH) + [c]) == (before + Join(cs[1..], SLASH)) + [c];
    }
  }

  // A usable name has a component.
  lemma {:induction false} UsableHasComponents(s: string)
    ensures Usable(s) <==> Components(s) != []
    decreases |s|
  {
    if s == "" {
      NothingKept(Split("", SLASH));
    } else {
      var init, c := s[..|s| - 1], s[|s| - 1];
      assert s == init + [c];
      UsableHasComponents(init);
      ComponentsStep(init, c);
      PartsStep(Split(DropService(init), SLASH), c);
      UsableStep(init, c);
    }
  }

  lemma UsableStep(s: string, c: char)
    ensures Usable(s + [c]) <==> Usable(s) || (c != SERVICE && c != SLASH)
  {
    var t := s + [c];
    if i :| 0 <= i < |s| && s[i] != SERVICE && s[i] != SLASH {
      assert t[i] == s[i];
    }
    if c != SERVICE && c != SLASH {
      assert t[|s|] == c;
    }
  }

  // The components of a name have no separator and no service character.
  lemma ComponentsAreClean(s: string)
    ensures FreeOf(Components(s), SLASH) && FreeOf(Components(s), SERVICE)
  {
    var kept := DropService(s);
    SplitIsFree(kept, SLASH);
    PartsFrom(kept, SLASH, SERVICE);
    NonEmptyIsFree(Split(kept, SLASH), SLASH);
    NonEmptyIsFree(Split(kept, SLASH), SERVICE);
  }

  lemma {:induction false} NonEmptyIsFree(parts: seq<string>, c: char)
    requires FreeOf(parts, c)
    ensures FreeOf(NonEmpty(parts), c)
    decreases |parts|
  {
    if parts != [] {
      NonEmptyIsFree(parts[1..], c);
    }
  }

  // A character a string lacks is in none of its parts.
  lemma {:induction false} PartsFrom(s: string, sep: char, c: char)
    requires c !in s
    ensures FreeOf(Split(s, sep), c)
    decreases |s|
  {
    if sep in s {
      var a, b := FirstPart(s, sep);
      SplitUnfold(a, sep, b);
      PartsFrom(b, sep, c);
    } else {
      SplitSingle(s, sep);
    }
  }

  lemma LastKept(s: string, r: string, onceSlash: bool)
    requires Scanned(s, r, onceSlash) && Usable(s)
    ensures r != ""
    ensures (if r[|r| - 1] == SLASH then r[..|r| - 1] else r) == Canonical(s)
  {
    hide Split, DropService, NonEmpty, Join;
    UsableHasComponents(s);
    ComponentsAreClean(s);
    JoinEnds(Components(s));
    if onceSlash {
      assert r[..|r| - 1] == Canonical(s);
    }
  }

  // What the scanner has kept at the end of a name has a last character to look at,
  // exactly if the name is usable.
  lemma KeepsSomething(s: string, r: string, onceSlash: bool)
    requires Scanned(s, r, onceSlash)
    ensures r != "" <==> Usable(s)
  {
    hide Split, DropService, NonEmpty, Join;
    UsableHasComponents(s);
    JoinEmptyOnlyOfNone(Components(s));
  }

  lemma {:induction false} JoinEnds(cs: seq<string>)
    requires cs != [] && FreeOf(cs, SLASH) && forall k | 0 <= k < |cs| :: cs[k] != ""
    ensures
      var j := Join(cs, SLASH);
      j != "" && j[0] == cs[0][0] != SLASH && j[|j| - 1] != SLASH
    decreases |cs|
  {
    if |cs| > 1 {
      JoinEnds(cs[1..]);
    }
  }

  // ---------- Canonical names ----------

  predicate NoDoubleSlash(s: string) {
    forall i | 0 <= i < |s| - 1 :: !(s[i] == SLASH && s[i + 1] == SLASH)
  }

  predicate IsCanonical(s: string) {
    && s != ""
    && SERVICE !in s
    && s[0] != SLASH
    && s[|s| - 1] != SLASH
    && NoDoubleSlash(s)
  }

  lemma {:induction false} JoinIsCanonical(cs: seq<string>)
    requires cs != [] && FreeOf(cs, SLASH) && FreeOf(cs, SERVICE) && forall k | 0 <= k < |cs| :: cs[k] != ""
    ensures IsCanonical(Join(cs, SLASH))
    decreases |cs|
  {
    JoinEnds(cs);
    if |cs| > 1 {
      JoinIsCanonical(cs[1..]);
      JoinEnds(cs[1..]);
      var a, b := cs[0], Join(cs[1..], SLASH);
      var j := a + [SLASH] + b;
      forall i | 0 <= i < |j| - 1 ensures !(j[i] == SLASH && j[i + 1] == SLASH) {
        if i > |a| {
          assert j[i] == b[i - |a| - 1] && j[i + 1] == b[i - |a|];
        }
      }
    }
  }

  lemma {:induction false} CanonicalHasNoEmptyPart(s: string)
    requires s != "" && s[0] != SLASH && s[|s| - 1] != SLASH && NoDoubleSlash(s)
    ensures NonEmpty(Split(s, SLASH)) == Split(s, SLASH)
    decreases |s|
  {
    hide Split;
    if SLASH in s {
      var a, b := FirstPart(s, SLASH);
      assert s[|a|] == SLASH;
      assert b != "" && b[0] == s[|a| + 1] && b[|b| - 1] == s[|s| - 1];
      forall i | 0 <= i < |b| - 1 ensures !(b[i] == SLASH && b[i + 1] == SLASH) {
        assert b[i] == s[|a| + 1 + i] && b[i + 1] == s[|a| + 1 + i + 1];
      }
      SplitUnfold(a, SLASH, b);
      CanonicalHasNoEmptyPart(b);
      assert ([a] + Split(b, SLASH))[1..] == Split(b, SLASH);
    } else {
      SplitSingle(s, SLASH);
    }
  }

  lemma {:induction false} NothingToDrop(s: string)
    requires SERVICE !in s
    ensures DropService(s) == s
    decreases |s|
  {
    if s != "" {
      NothingToDrop(s[1..]);
    }
  }

  // The scanner's results are exactly the canonical names,
  lemma CanonicalImage(t: string)
    ensures IsCanonical(t) <==> exists s :: Usable(s) && Canonical(s) == t
    ensures IsCanonical(t) ==> Usable(t) && Canonical(t) == t
  {
    if IsCanonical(t) {
      NothingToDrop(t);
      CanonicalHasNoEmptyPart(t);
      JoinOfSplit(t, SLASH);
      UsableHasComponents(t);
    }
    if s :| Usable(s) && Canonical(s) == t {
      UsableHasComponents(s);
      ComponentsAreClean(s);
      JoinIsCanonical(Components(s));
    }
  }

  // simplifying twice is simplifying once,
  lemma Idempotent(s: string)
    requires Usable(s)
    ensures Usable(Canonical(s)) && Canonical(Canonical(s)) == Canonical(s)
  {
    CanonicalImage(Canonical(s));
  }

  lemma ComponentsOfCanonical(s: string)
    requires Usable(s)
    ensures Components(Canonical(s)) == Components(s)
  {
    UsableHasComponents(s);
    ComponentsAreClean(s);
    JoinIsCanonical(Components(s));
    NothingToDrop(Canonical(s));
    SplitOfJoin(Components(s), SLASH);
    KeepNonEmpty(Components(s));
  }

  lemma {:induction false} KeepNonEmpty(parts: seq<string>)
    requires forall k | 0 <= k < |parts| :: parts[k] != ""
    ensures NonEmpty(parts) == parts
    decreases |parts|
  {
    if parts != [] {
      KeepNonEmpty(parts[1..]);
    }
  }

  // and two names are the same topic exactly when they have the same components.
  lemma SameTopic(a: string, b: string)
    requires Usable(a) && Usable(b)
    ensures Canonical(a) == Canonical(b) <==> Components(a) == Components(b)
  {
    ComponentsOfCanonical(a);
    ComponentsOfCanonical(b);
  }

  lemma {:induction false} SplitOfConcat(a: string, b: string)
    ensures Split(a + [SLASH] + b, SLASH) == Split(a, SLASH) + Split(b, SLASH)
    decreases |a|
  {
    hide Split;
    if SLASH in a {
      var x, y := FirstPart(a, SLASH);
      SplitUnfold(x, SLASH, y);
      assert a + [SLASH] + b == x + [SLASH] + (y + [SLASH] + b);
      SplitUnfold(x, SLASH, y + [SLASH] + b);
      SplitOfConcat(y, b);
    } else {
      SplitSingle(a, SLASH);
      SplitUnfold(a, SLASH, b);
    }
  }

  lemma ComponentsOfConcat(a: string, b: string)
    ensures Components(a + [SLASH] + b) == Components(a) + Components(b)
  {
    DropServiceConcat(a + [SLASH], b);
    DropServiceConcat(a, [SLASH]);
    NothingToDrop([SLASH]);
    SplitOfConcat(DropService(a), DropService(b));
    NonEmptyConcat(Split(DropService(a), SLASH), Split(DropService(b), SLASH));
  }

  // A name below another one can be simplified piece by piece.
  lemma SimplifyBelow(a: string, b: string)
    requires Usable(a) && Usable(b)
    ensures Usable(a + [SLASH] + b)
    ensures Canonical(a + [SLASH] + b) == Canonical(Canonical(a) + [SLASH] + Canonical(b))
  {
    ComponentsOfConcat(a, b);
    ComponentsOfConcat(Canonical(a), Canonical(b));
    ComponentsOfCanonical(a);
    ComponentsOfCanonical(b);
    UsableHasComponents(a);
    UsableHasComponents(a + [SLASH] + b);
  }
}
