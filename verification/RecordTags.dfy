/** The tag field of the record form: one key=value pair per line. Every
    accepted text round-trips through printing, in any order of its keys. */
module RecordTags {
  import opened Model
  import opened Ordering
  import opened Text

  const NEWLINE: char := '\n'

  datatype Parsed = Accepted(tags: Tags) | Malformed | Repeated(key: string, line: nat)

  datatype Line = Blank | Bad | Entry(key: string, value: string)

  /** One line of the field. */
  function ReadLine(raw: string): Line {
    var line := TrimSpace(raw);
    if line == "" then Blank
    else
      var (before, after, found) := Cut(line, '=');
      var key := TrimSpace(before);
      if !found || key == "" then Bad else Entry(key, TrimSpace(after))
  }

  /** What a line says: nothing, a pair around its first equals sign, or nonsense. */
  lemma ReadLineExactly(raw: string, before: string, after: string)
    requires '=' !in before && TrimSpace(raw) == before + "=" + after
    ensures TrimSpace(before) != "" ==> ReadLine(raw) == Entry(TrimSpace(before), TrimSpace(after))
    ensures TrimSpace(before) == "" ==> ReadLine(raw) == Bad
  {
    hide TrimSpace;
    assert before + "=" + after == before + ['='] + after;
    CutAtFirst(before, after, '=');
  }

  lemma NoPairLine(raw: string)
    requires '=' !in TrimSpace(raw)
    ensures ReadLine(raw) == if TrimSpace(raw) == "" then Blank else Bad
  {
    hide TrimSpace;
  }

  /** The remaining lines, numbered from first, added to the pairs already read. */
  function ReadLines(lines: seq<string>, first: nat, tags: Tags): Parsed {
    if lines == [] then Accepted(tags)
    else match ReadLine(lines[0])
      case Blank => ReadLines(lines[1..], first + 1, tags)
      case Bad => Malformed
      case Entry(key, value) =>
        if key in tags then Repeated(key, first) else ReadLines(lines[1..], first + 1, tags[key := value])
  }

  function Read(value: string): Parsed {
    if TrimSpace(value) == "" then Accepted(map[]) else ReadLines(Split(value, NEWLINE), 1, map[])
  }

  /** No line is malformed and no key is given twice. */
  ghost predicate WellFormedLines(lines: seq<string>, tags: Tags) {
    && (forall i :: 0 <= i < |lines| ==> !ReadLine(lines[i]).Bad?)
    && (forall i :: 0 <= i < |lines| && ReadLine(lines[i]).Entry? ==> ReadLine(lines[i]).key !in tags)
    && (forall i, j :: 0 <= i < j < |lines| && ReadLine(lines[i]).Entry? && ReadLine(lines[j]).Entry? ==>
          ReadLine(lines[i]).key != ReadLine(lines[j]).key)
  }

  ghost predicate GivenBy(lines: seq<string>, key: string, value: string) {
    exists i :: 0 <= i < |lines| && ReadLine(lines[i]) == Entry(key, value)
  }

  /** A text is accepted exactly when its lines are well formed, and the result
      holds exactly the pairs its lines give, whatever their order. */
  lemma {:induction false} AcceptedExactly(lines: seq<string>, first: nat, tags: Tags)
    ensures ReadLines(lines, first, tags).Accepted? <==> WellFormedLines(lines, tags)
    ensures WellFormedLines(lines, tags) ==> forall key, value ::
      Has(ReadLines(lines, first, tags).tags, key, value) <==> Has(tags, key, value) || GivenBy(lines, key, value)
  {
    hide ReadLine;
    if lines != [] {
      var rest := lines[1..];
      var tags' := match ReadLine(lines[0]) case Entry(key, value) => tags[key := value] case _ => tags;
      AcceptedExactly(rest, first + 1, tags');
      if ReadLine(lines[0]).Entry? {
        assert WellFormedLines(lines, tags) ==> ReadLine(lines[0]).key !in tags;
      }
      TailLines(lines, tags, tags');
      forall key, value ensures GivenBy(lines, key, value) <==> ReadLine(lines[0]) == Entry(key, value) || GivenBy(rest, key, value) {
        if i :| 0 <= i < |lines| && ReadLine(lines[i]) == Entry(key, value) {
          assert i > 0 ==> rest[i - 1] == lines[i];
        }
        if i :| 0 <= i < |rest| && ReadLine(rest[i]) == Entry(key, value) {
          assert lines[i + 1] == rest[i];
        }
      }
    }
  }

  predicate Has(tags: Tags, key: string, value: string) {
    key in tags && tags[key] == value
  }

  lemma TailLines(lines: seq<string>, tags: Tags, tags': Tags)
    requires lines != []
    requires tags' == match ReadLine(lines[0]) case Entry(key, value) => tags[key := value] case _ => tags
    ensures WellFormedLines(lines, tags) <==>
              && !ReadLine(lines[0]).Bad?
              && (ReadLine(lines[0]).Entry? ==> ReadLine(lines[0]).key !in tags)
              && WellFormedLines(lines[1..], tags')
  {
    hide ReadLine;
    var rest := lines[1..];
    assert forall i :: 0 <= i < |rest| ==> rest[i] == lines[i + 1];
    assert forall i :: 1 <= i < |lines| ==> lines[i] == rest[i - 1];
  }

  /** Line i is malformed, or gives a key that was given before. */
  ghost predicate Offends(lines: seq<string>, i: nat, tags: Tags)
    requires i < |lines|
  {
    ReadLine(lines[i]).Bad? || (ReadLine(lines[i]).Entry? && (ReadLine(lines[i]).key in tags || GivenEarlier(lines, i, ReadLine(lines[i]).key)))
  }

  ghost predicate GivenEarlier(lines: seq<string>, i: nat, key: string)
    requires i <= |lines|
  {
    exists j :: 0 <= j < i && ReadLine(lines[j]).Entry? && ReadLine(lines[j]).key == key
  }

  lemma OffendsLater(lines: seq<string>, i: nat, tags: Tags, tags': Tags)
    requires 1 <= i < |lines|
    requires tags' == match ReadLine(lines[0]) case Entry(key, value) => tags[key := value] case _ => tags
    ensures Offends(lines, i, tags) <==> Offends(lines[1..], i - 1, tags')
  {
    hide ReadLine;
    var rest := lines[1..];
    assert forall j :: 0 <= j < |rest| ==> rest[j] == lines[j + 1];
    if ReadLine(lines[i]).Entry? {
      var key := ReadLine(lines[i]).key;
      if GivenEarlier(lines, i, key) {
        var j :| 0 <= j < i && ReadLine(lines[j]).Entry? && ReadLine(lines[j]).key == key;
        assert j > 0 ==> ReadLine(rest[j - 1]) == ReadLine(lines[j]);
      }
      if GivenEarlier(rest, i - 1, key) {
        var j :| 0 <= j < i - 1 && ReadLine(rest[j]).Entry? && ReadLine(rest[j]).key == key;
        assert ReadLine(lines[j + 1]) == ReadLine(rest[j]);
      }
    }
  }

  /** A rejected text is rejected for its first offending line: as malformed when that
      line is, and otherwise with the key it repeats and its number. */
  lemma {:induction false} RejectedForFirstOffence(lines: seq<string>, first: nat, tags: Tags) returns (i: nat)
    requires !ReadLines(lines, first, tags).Accepted?
    ensures i < |lines| && Offends(lines, i, tags)
    ensures forall j :: 0 <= j < i ==> !Offends(lines, j, tags)
    ensures ReadLines(lines, first, tags) ==
            if ReadLine(lines[i]).Bad? then Malformed else Repeated(ReadLine(lines[i]).key, first + i)
  {
    hide ReadLine;
    var tags' := match ReadLine(lines[0]) case Entry(key, value) => tags[key := value] case _ => tags;
    if Offends(lines, 0, tags) {
      i := 0;
    } else {
      i := RejectedForFirstOffence(lines[1..], first + 1, tags');
      OffendsLater(lines, i + 1, tags, tags');
      forall j | 1 <= j < i + 1 ensures !Offends(lines, j, tags) {
        OffendsLater(lines, j, tags, tags');
      }
      i := i + 1;
    }
  }

  /** The result is the complaint about line i, counted from 1, and no earlier line gives cause for one. */
  ghost predicate FirstOffence(lines: seq<string>, i: nat, r: Parsed) {
    && i < |lines| && Offends(lines, i, map[]) && (forall j :: 0 <= j < i ==> !Offends(lines, j, map[]))
    && r == if ReadLine(lines[i]).Bad? then Malformed else Repeated(ReadLine(lines[i]).key, i + 1)
  }

  lemma RejectionNamesFirst(value: string)
    ensures !Read(value).Accepted? ==> exists i: nat :: FirstOffence(Split(value, NEWLINE), i, Read(value))
  {
    hide ReadLine, Offends, ReadLines;
    if !Read(value).Accepted? {
      var i := RejectedForFirstOffence(Split(value, NEWLINE), 1, map[]);
      assert FirstOffence(Split(value, NEWLINE), i, Read(value));
    }
  }

  lemma {:induction false} AllSpaceTrims(s: string)
    requires forall i :: 0 <= i < |s| ==> IsSpace(s[i])
    ensures TrimLeft(s) == ""
  {
    if s != "" {
      AllSpaceTrims(s[1..]);
    }
  }

  /** A blank text has blank lines only. */
  lemma BlankLines(value: string)
    requires TrimSpace(value) == ""
    ensures forall i :: 0 <= i < |Split(value, NEWLINE)| ==> ReadLine(Split(value, NEWLINE)[i]).Blank?
  {
    var lines := Split(value, NEWLINE);
    var from, to := TrimsOnlySpace(value);
    JoinSplit(value, NEWLINE);
    forall i | 0 <= i < |lines| ensures ReadLine(lines[i]).Blank? {
      JoinedHolds(lines, NEWLINE, i);
      forall k | 0 <= k < |lines[i]| ensures IsSpace(lines[i][k]) {
        assert lines[i][k] in value;
        var j :| 0 <= j < |value| && value[j] == lines[i][k];
      }
      AllSpaceTrims(lines[i]);
    }
  }

  /** Reading a text: accepted exactly with well-formed lines, for exactly the pairs they give. */
  lemma ReadExactly(value: string)
    ensures Read(value).Accepted? <==> WellFormedLines(Split(value, NEWLINE), map[])
    ensures Read(value).Accepted? ==> forall key, v :: Has(Read(value).tags, key, v) <==> GivenBy(Split(value, NEWLINE), key, v)
  {
    hide ReadLine;
    if TrimSpace(value) == "" {
      BlankLines(value);
    } else {
      AcceptedExactly(Split(value, NEWLINE), 1, map[]);
    }
  }

  /** parseRecordChangeTags. */
  method ParseRecordChangeTags(value: string) returns (r: Parsed)
    ensures r == Read(value)
    ensures r.Accepted? <==> WellFormedLines(Split(value, '\n'), map[])
    ensures r.Accepted? ==> forall key, v :: Has(r.tags, key, v) <==> GivenBy(Split(value, '\n'), key, v)
    ensures !r.Accepted? ==> exists i: nat :: FirstOffence(Split(value, '\n'), i, r)
  {
    RejectionNamesFirst(value);
    ReadExactly(value);
    hide FirstOffence, Offends, WellFormedLines, GivenBy, Has;
    if TrimSpace(value) == "" {
      return Accepted(map[]);
    }
    var tags: Tags := map[];
    var lines := Split(value, NEWLINE);
    for lineNumber := 0 to |lines|
      invariant ReadLines(lines, 1, map[]) == ReadLines(lines[lineNumber..], lineNumber + 1, tags)
    {
      var line := TrimSpace(lines[lineNumber]);
      if line == "" {
        continue;
      }
      var (before, after, found) := Cut(line, '=');
      var key := TrimSpace(before);
      var tagValue := TrimSpace(after);
      if !found || key == "" {
        return Malformed;
      }
      if key in tags {
        return Repeated(key, lineNumber + 1);
      }
      tags := tags[key := tagValue];
    }
    r := Accepted(tags);
  }

  // ----- What accepted tags look like

  predicate CleanKey(key: string) {
    key != "" && Trimmed(key) && '=' !in key && NEWLINE !in key
  }

  predicate CleanValue(value: string) {
    Trimmed(value) && NEWLINE !in value
  }

  predicate CleanTags(tags: Tags) {
    forall key :: key in tags ==> CleanKey(key) && CleanValue(tags[key])
  }

  lemma {:induction false} ReadLinesClean(lines: seq<string>, first: nat, tags: Tags)
    requires CleanTags(tags)
    requires forall i :: 0 <= i < |lines| ==> NEWLINE !in lines[i]
    ensures ReadLines(lines, first, tags).Accepted? ==> CleanTags(ReadLines(lines, first, tags).tags)
  {
    if lines != [] {
      match ReadLine(lines[0])
      case Blank => ReadLinesClean(lines[1..], first + 1, tags);
      case Bad =>
      case Entry(key, value) =>
        CutParts(TrimSpace(lines[0]));
        if key !in tags {
          ReadLinesClean(lines[1..], first + 1, tags[key := value]);
        }
    }
  }

  lemma CutParts(line: string)
    ensures var (before, after, found) := Cut(line, '=');
      (forall c :: c in before ==> c in line) && (forall c :: c in after ==> c in line)
  {
  }

  /** Accepted keys are non-empty, trimmed and free of separators; values are trimmed. */
  lemma AcceptedIsClean(value: string)
    ensures Read(value).Accepted? ==> CleanTags(Read(value).tags)
  {
    if TrimSpace(value) != "" {
      ReadLinesClean(Split(value, NEWLINE), 1, map[]);
    }
  }

  // ----- Printing

  function PrintLine(key: string, value: string): string {
    key + ['='] + value
  }

  /** key=value lines in the given order of the keys. */
  function Print(keys: seq<string>, tags: Tags): string
    requires forall k :: k in keys ==> k in tags
  {
    if keys == [] then "" else PrintLine(keys[0], tags[keys[0]]) + [NEWLINE] + Print(keys[1..], tags)
  }

  lemma ReadPrintedLine(key: string, value: string)
    requires CleanKey(key) && CleanValue(value)
    ensures ReadLine(PrintLine(key, value)) == Entry(key, value)
    ensures NEWLINE !in PrintLine(key, value)
  {
    var line := PrintLine(key, value);
    assert Trimmed(line);
    CutAtFirst(key, value, '=');
  }

  function Picked(keys: seq<string>, tags: Tags): Tags
    requires forall k :: k in keys ==> k in tags
  {
    map k | k in keys :: tags[k]
  }

  lemma PickedFirst(keys: seq<string>, tags: Tags, done: Tags)
    requires NoDuplicates(keys) && keys != [] && forall k :: k in keys ==> k in tags && k !in done
    ensures forall k :: k in keys[1..] ==> k in tags && k != keys[0]
    ensures done[keys[0] := tags[keys[0]]] + Picked(keys[1..], tags) == done + Picked(keys, tags)
  {
    assert keys == [keys[0]] + keys[1..];
  }

  lemma SplitLine(line: string, rest: string)
    requires NEWLINE !in line
    ensures Split(line + [NEWLINE] + rest, NEWLINE) == [line] + Split(rest, NEWLINE)
  {
    CutAtFirst(line, rest, NEWLINE);
  }

  lemma {:induction false} ReadPrinted(keys: seq<string>, tags: Tags, first: nat, done: Tags)
    requires CleanTags(tags) && NoDuplicates(keys)
    requires forall k :: k in keys ==> k in tags && k !in done
    ensures ReadLines(Split(Print(keys, tags), NEWLINE), first, done) == Accepted(done + Picked(keys, tags))
    decreases |keys|
  {
    hide ReadLine, CleanKey, CleanValue, PrintLine;
    if keys == [] {
      assert Split("", NEWLINE) == [""];
      assert ReadLine("") == Blank by { BlankLine(); }
      assert done + Picked(keys, tags) == done;
    } else {
      var key, rest := keys[0], Print(keys[1..], tags);
      var line := PrintLine(key, tags[key]);
      assert key in keys;
      ReadPrintedLine(key, tags[key]);
      SplitLine(line, rest);
      var tail := Split(rest, NEWLINE);
      assert ([line] + tail)[1..] == tail;
      PickedFirst(keys, tags, done);
      ReadPrinted(keys[1..], tags, first + 1, done[key := tags[key]]);
    }
  }

  lemma BlankLine()
    ensures ReadLine("") == Blank
  {
  }

  lemma {:induction false} BlankIsAllSpace(s: string)
    ensures TrimRight(s) == "" ==> forall i :: 0 <= i < |s| ==> IsSpace(s[i])
    decreases |s|
  {
    if s != "" && IsSpace(s[|s| - 1]) {
      BlankIsAllSpace(s[..|s| - 1]);
    }
  }

  lemma PrintedIsNotBlank(keys: seq<string>, tags: Tags)
    requires CleanTags(tags) && keys != [] && forall k :: k in keys ==> k in tags
    ensures TrimSpace(Print(keys, tags)) != ""
  {
    var text := Print(keys, tags);
    assert keys[0] in keys && CleanKey(keys[0]);
    assert text[0] == keys[0][0] && !IsSpace(text[0]);
    assert TrimLeft(text) == text;
    BlankIsAllSpace(text);
  }

  /** Printing accepted tags in any order and reading them again gives the same map. */
  lemma RoundTrip(value: string, keys: seq<string>)
    requires Read(value).Accepted?
    requires NoDuplicates(keys) && Elements(keys) == Read(value).tags.Keys
    ensures forall k :: k in keys ==> k in Read(value).tags
    ensures Read(Print(keys, Read(value).tags)) == Read(value)
  {
    hide CleanTags, ReadLines, Print;
    var tags := Read(value).tags;
    AcceptedIsClean(value);
    forall k | k in keys ensures k in tags {
      assert k in Elements(keys);
    }
    assert Picked(keys, tags) == tags by {
      forall k | k in tags ensures k in keys {
        assert k in Elements(keys);
      }
    }
    if keys == [] {
      assert Print(keys, tags) == "" by { PrintNothing(tags); }
    } else {
      PrintedIsNotBlank(keys, tags);
      ReadPrinted(keys, tags, 1, map[]);
      assert map[] + Picked(keys, tags) == tags;
    }
  }

  lemma PrintNothing(tags: Tags)
    ensures Print([], tags) == ""
  {
  }
}
