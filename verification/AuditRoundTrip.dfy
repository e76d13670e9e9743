/** Reading back what the audit logger wrote: which events survive, when the early stop is harmless, and what the
    order of the files does to it. */
module AuditRoundTrip {
  import opened Outcomes
  import opened AuditLog

  /** What the JSON and signature libraries provide: an event's text is an object on one line, parses to the event,
      and no proper part of it from its beginning parses; signatures are on one line. */
  ghost predicate GoodCodec(k: Codec) {
    && (forall e :: k.decode(k.encode(e)) == Some(e))
    && (forall e :: k.encode(e) != "" && k.encode(e)[0] == '{')
    && (forall e, c :: c in k.encode(e) ==> c != '\n' && c != '\r')
    && (forall e, n: nat :: n < |k.encode(e)| ==> k.decode(k.encode(e)[..n]) == None)
    && (forall s, c :: c in k.sign(s) ==> c != '\n' && c != '\r')
  }

  // ---------------------------------------------------------------- one line

  /** The separator's only blank is its first character, so it cannot overlap itself: after a text without it, it
      is found where it was put. */
  lemma FindsSignature(json: string, rest: string)
    requires !Contains(json, SIG)
    ensures Find(json + SIG + rest, SIG) == Some(|json|)
  {
    var line := json + SIG + rest;
    assert OccursAt(line, SIG, |json|);
    forall j: nat | j < |json|
      ensures !OccursAt(line, SIG, j)
    {
      if j + |SIG| <= |json| {
        assert line[j..j + |SIG|] == json[j..j + |SIG|] && !OccursAt(json, SIG, j);
      } else {
        var overlap := |json| - j;
        assert line[j..j + |SIG|][overlap] == line[|json|] == ' ' != SIG[overlap];
      }
    }
  }

  /** A separator inside the event's own text is found first. */
  lemma FindsEarlier(json: string, rest: string)
    requires Contains(json, SIG)
    ensures Find(json + rest, SIG).Some? && Find(json + rest, SIG).value < |json|
  {
    var i := Find(json, SIG).value;
    assert (json + rest)[i..i + |SIG|] == json[i..i + |SIG|];
    assert OccursAt(json + rest, SIG, i);
  }

  lemma NoSeparator(json: string)
    requires !Contains(json, SIG)
    ensures Unsigned(json) == json
  {
  }

  lemma NotBlank(k: Codec, c: Config, e: Event)
    requires GoodCodec(k)
    ensures !Blank(LineOf(k, c, e))
  {
    var json := k.encode(Stamp(c, e));
    assert LineOf(k, c, e)[0] == json[0] == '{';
    assert LineOf(k, c, e)[0] in LineOf(k, c, e);
  }

  /** A logged event is read back, with its node stamped, exactly when its text does not contain the separator;
      otherwise its line is skipped. */
  lemma LineReadsBack(k: Codec, c: Config, e: Event)
    requires GoodCodec(k)
    ensures EventOf(k, LineOf(k, c, e)) == if Contains(k.encode(Stamp(c, e)), SIG) then None else Some(Stamp(c, e))
  {
    NotBlank(k, c, e);
    var stamped := Stamp(c, e);
    var json := k.encode(stamped);
    var rest := if c.signing then SIG + k.sign(json) else "";
    assert LineOf(k, c, e) == json + rest;
    if Contains(json, SIG) {
      FindsEarlier(json, rest);
      var i := Find(json + rest, SIG).value;
      assert (json + rest)[..i] == json[..i];
    } else if c.signing {
      FindsSignature(json, k.sign(json));
      assert json + SIG + k.sign(json) == json + rest;
      assert (json + rest)[..|json|] == json;
    } else {
      NoSeparator(json);
    }
  }

  // ---------------------------------------------------------------- one file

  predicate OneLine(line: string) {
    forall c :: c in line ==> c != '\n' && c != '\r'
  }

  lemma LineOfIsOneLine(k: Codec, c: Config, e: Event)
    requires GoodCodec(k)
    ensures OneLine(LineOf(k, c, e))
  {
    var json := k.encode(Stamp(c, e));
    forall ch | ch in LineOf(k, c, e)
      ensures ch != '\n' && ch != '\r'
    {
      if ch !in json && c.signing {
        assert ch in SIG || ch in k.sign(json);
      }
    }
  }

  function Joined(lines: seq<string>): string {
    if lines == [] then "" else lines[0] + "\n" + Joined(lines[1..])
  }

  lemma {:induction false} LineEndOf(line: string, rest: string)
    requires OneLine(line)
    ensures LineEnd(line + "\n" + rest) == |line|
  {
    if line != "" {
      assert line[0] in line && forall c :: c in line[1..] ==> c in line;
      assert (line + "\n" + rest)[1..] == line[1..] + "\n" + rest;
      LineEndOf(line[1..], rest);
    }
  }

  lemma LineFirst(line: string, rest: string)
    requires OneLine(line)
    ensures Lines(line + "\n" + rest) == [line] + Lines(rest)
  {
    LineEndOf(line, rest);
    assert (line + "\n" + rest)[..|line|] == line;
    assert line != "" ==> line[|line| - 1] in line;
    assert (line + "\n" + rest)[|line| + 1..] == rest;
  }

  /** A line may as well end in a carriage return and a newline. */
  lemma ReturnIsStripped(line: string, rest: string)
    requires OneLine(line)
    ensures Lines(line + "\r\n" + rest) == [line] + Lines(rest)
  {
    var text := line + "\r\n" + rest;
    assert text == line + ("\r\n" + rest);
    EndsBeforeNewline(line + "\r", rest);
    assert text == (line + "\r") + "\n" + rest;
    assert text[..|line| + 1] == line + "\r" && text[|line| + 2..] == rest;
  }

  lemma {:induction false} EndsBeforeNewline(line: string, rest: string)
    requires '\n' !in line
    ensures LineEnd(line + "\n" + rest) == |line|
  {
    if line != "" {
      assert (line + "\n" + rest)[1..] == line[1..] + "\n" + rest;
      EndsBeforeNewline(line[1..], rest);
    }
  }

  /** A line of nothing but white space changes nothing that is read. */
  lemma BlankIsSkipped(k: Codec, before: seq<string>, blank: string, after: seq<string>)
    requires forall c :: c in blank ==> c in {' ', '\t', '\n', '\U{000b}', '\U{000c}', '\r'}
    ensures Parsed(k, before + [blank] + after) == Parsed(k, before + after)
  {
    ParsedAppends(k, before + [blank], after);
    ParsedAppends(k, before, [blank]);
    ParsedAppends(k, before, after);
    WhiteIsBlank(k, blank);
  }

  lemma WhiteIsBlank(k: Codec, blank: string)
    requires forall c :: c in blank ==> c in {' ', '\t', '\n', '\U{000b}', '\U{000c}', '\r'}
    ensures Parsed(k, [blank]) == []
  {
    assert Blank(blank);
    assert [blank][1..] == [];
  }

  /** Splitting undoes joining. */
  lemma {:induction false} LinesJoined(lines: seq<string>)
    requires forall line :: line in lines ==> OneLine(line)
    ensures Lines(Joined(lines)) == lines
  {
    if lines != [] {
      LinesJoined(lines[1..]);
      LineFirst(lines[0], Joined(lines[1..]));
    }
  }

  lemma {:induction false} JoinedAppends(lines: seq<string>, line: string)
    ensures Joined(lines + [line]) == Joined(lines) + (line + "\n")
  {
    if lines == [] {
      assert [line][1..] == [] && lines + [line] == [line];
    } else {
      JoinedAppends(lines[1..], line);
      assert (lines + [line])[1..] == lines[1..] + [line] && (lines + [line])[0] == lines[0];
    }
  }

  function LoggedLines(k: Codec, c: Config, events: seq<Event>): seq<string> {
    if events == [] then []
    else
      var e := events[|events| - 1];
      LoggedLines(k, c, events[..|events| - 1]) + if Logged(c, e) then [LineOf(k, c, e)] else []
  }

  lemma {:induction false} WrittenIsJoined(k: Codec, c: Config, events: seq<Event>)
    requires GoodCodec(k)
    ensures Written(k, c, events) == Joined(LoggedLines(k, c, events))
    ensures forall line :: line in LoggedLines(k, c, events) ==> OneLine(line)
  {
    if events != [] {
      var front, e := events[..|events| - 1], events[|events| - 1];
      WrittenIsJoined(k, c, front);
      LineOfIsOneLine(k, c, e);
      if Logged(c, e) {
        JoinedAppends(LoggedLines(k, c, front), LineOf(k, c, e));
      } else {
        assert LoggedLines(k, c, events) == LoggedLines(k, c, front);
      }
    }
  }

  /** The events that can be read back: severe enough, stamped, and without the separator in their text. */
  function Survivors(k: Codec, c: Config, events: seq<Event>): seq<Event> {
    if events == [] then []
    else
      var e := events[|events| - 1];
      Survivors(k, c, events[..|events| - 1])
      + if Logged(c, e) && !Contains(k.encode(Stamp(c, e)), SIG) then [Stamp(c, e)] else []
  }

  lemma {:induction false} LinesReadBack(k: Codec, c: Config, events: seq<Event>)
    requires GoodCodec(k)
    ensures Parsed(k, LoggedLines(k, c, events)) == Survivors(k, c, events)
  {
    if events != [] {
      var front, e := events[..|events| - 1], events[|events| - 1];
      LinesReadBack(k, c, front);
      if Logged(c, e) {
        var line := LineOf(k, c, e);
        ParsedAppends(k, LoggedLines(k, c, front), [line]);
        LineReadsBack(k, c, e);
        assert [line][1..] == [] && Parsed(k, []) == [];
        assert Parsed(k, [line]) == ParsedLine(k, line);
      } else {
        assert LoggedLines(k, c, events) == LoggedLines(k, c, front);
      }
    }
  }

  /** Parsing the written file gives exactly the survivors, in order. */
  lemma FileReadsBack(k: Codec, c: Config, events: seq<Event>)
    requires GoodCodec(k)
    ensures Parsed(k, Lines(Written(k, c, events))) == Survivors(k, c, events)
  {
    WrittenIsJoined(k, c, events);
    LinesJoined(LoggedLines(k, c, events));
    LinesReadBack(k, c, events);
  }

  // ---------------------------------------------------------------- the early stop

  /** No wanted event comes after one that is later than the window. */
  ghost predicate StopIsHarmless(k: Codec, events: seq<Event>, q: Query) {
    forall i, j :: 0 <= i < j < |events| && events[i].timestamp > q.end ==> !Wanted(k, events[j], q)
  }

  lemma {:induction false} NothingSelected(k: Codec, events: seq<Event>, q: Query)
    ensures Select(k, events, q) == [] <==> forall j :: 0 <= j < |events| ==> !Wanted(k, events[j], q)
  {
    if events != [] {
      NothingSelected(k, events[1..], q);
      assert forall j :: 0 < j < |events| ==> events[j] == events[1..][j - 1];
    }
  }

  /** The query that stops early returns what a full scan returns exactly when no wanted event comes after one that is
      later than the window. */
  lemma {:induction false} EarlyStopIsExact(k: Codec, events: seq<Event>, q: Query)
    ensures Scan(k, events, q) == Select(k, events, q) <==> StopIsHarmless(k, events, q)
  {
    if events != [] {
      var rest := events[1..];
      EarlyStopIsExact(k, rest, q);
      assert forall j :: 0 < j < |events| ==> events[j] == rest[j - 1];
      if events[0].timestamp > q.end {
        NothingSelected(k, rest, q);
      } else {
        HarmlessTail(k, events, q);
        SamePrefix(IfWanted(k, events[0], q), Scan(k, rest, q), Select(k, rest, q));
      }
    }
  }

  lemma SamePrefix(p: seq<Event>, a: seq<Event>, b: seq<Event>)
    ensures p + a == p + b <==> a == b
  {
    assert (p + a)[|p|..] == a && (p + b)[|p|..] == b;
  }

  lemma HarmlessTail(k: Codec, events: seq<Event>, q: Query)
    requires events != [] && events[0].timestamp <= q.end
    ensures StopIsHarmless(k, events, q) <==> StopIsHarmless(k, events[1..], q)
  {
    var rest := events[1..];
    forall i, j | 0 <= i < j < |rest|
      ensures rest[i] == events[i + 1] && rest[j] == events[j + 1]
    {
    }
    if StopIsHarmless(k, rest, q) {
      forall i, j | 0 <= i < j < |events| && events[i].timestamp > q.end
        ensures !Wanted(k, events[j], q)
      {
        assert events[i] == rest[i - 1] && events[j] == rest[j - 1];
      }
    }
  }

  ghost predicate Chronological(events: seq<Event>) {
    forall i, j :: 0 <= i < j < |events| ==> events[i].timestamp <= events[j].timestamp
  }

  lemma ChronologicalIsHarmless(k: Codec, events: seq<Event>, q: Query)
    requires Chronological(events)
    ensures StopIsHarmless(k, events, q)
  {
  }

  /** One file per batch of events, in reading order. */
  function Files(k: Codec, c: Config, batches: seq<seq<Event>>): seq<string> {
    if batches == [] then [] else Files(k, c, batches[..|batches| - 1]) + [Written(k, c, batches[|batches| - 1])]
  }

  function AllSurvivors(k: Codec, c: Config, batches: seq<seq<Event>>): seq<Event> {
    if batches == [] then []
    else AllSurvivors(k, c, batches[..|batches| - 1]) + Survivors(k, c, batches[|batches| - 1])
  }

  lemma {:induction false} FilesReadBack(k: Codec, c: Config, batches: seq<seq<Event>>)
    requires GoodCodec(k)
    ensures Parsed(k, AllLines(Files(k, c, batches))) == AllSurvivors(k, c, batches)
  {
    if batches != [] {
      var front, last := batches[..|batches| - 1], batches[|batches| - 1];
      var files := Files(k, c, batches);
      FilesReadBack(k, c, front);
      FileReadsBack(k, c, last);
      assert files[..|files| - 1] == Files(k, c, front);
      ParsedAppends(k, AllLines(Files(k, c, front)), Lines(Written(k, c, last)));
    }
  }

  /** Writing any events to any number of files and querying them in reading order returns exactly the surviving events
      of the window that match, in that order, if and only if none of those comes after an event later than the
      window; in particular whenever the reading order is chronological. */
  lemma LoggedThenQueried(k: Codec, c: Config, batches: seq<seq<Event>>, q: Query)
    requires GoodCodec(k)
    ensures var result := Scan(k, Parsed(k, AllLines(Files(k, c, batches))), q);
            var survivors := AllSurvivors(k, c, batches);
            && (result == Select(k, survivors, q) <==> StopIsHarmless(k, survivors, q))
            && (Chronological(survivors) ==> result == Select(k, survivors, q))
  {
    FilesReadBack(k, c, batches);
    var survivors := AllSurvivors(k, c, batches);
    EarlyStopIsExact(k, survivors, q);
    if Chronological(survivors) {
      ChronologicalIsHarmless(k, survivors, q);
    }
  }

  // ---------------------------------------------------------------- the order of the files

  predicate Before(a: string, b: string) {
    b != "" && (a == "" || a[0] < b[0] || (a[0] == b[0] && Before(a[1..], b[1..])))
  }

  function BaseName(day: string): string {
    "audit-" + day + ".log"
  }

  function RotatedName(day: string, sequence: string): string {
    "audit-" + day + "-" + sequence + ".log"
  }

  lemma {:induction false} BeforeAfterPrefix(p: string, a: string, b: string)
    requires Before(a, b)
    ensures Before(p + a, p + b)
  {
    if p == "" {
      assert p + a == a && p + b == b;
    } else {
      BeforeAfterPrefix(p[1..], a, b);
      assert (p + a)[1..] == p[1..] + a && (p + b)[1..] == p[1..] + b;
    }
  }

  /** Files are read in the order of their names, and a rotated file of a day sorts before the file it continues. */
  lemma RotatedIsReadFirst(day: string, sequence: string)
    ensures Before(RotatedName(day, sequence), BaseName(day))
  {
    var p := "audit-" + day;
    assert Before("-" + sequence + ".log", ".log");
    BeforeAfterPrefix(p, "-" + sequence + ".log", ".log");
    assert RotatedName(day, sequence) == p + ("-" + sequence + ".log");
    assert BaseName(day) == p + ".log";
  }

  lemma TwoFiles(k: Codec, c: Config, first: seq<Event>, second: seq<Event>)
    ensures Files(k, c, [first, second]) == [Written(k, c, first), Written(k, c, second)]
    ensures AllSurvivors(k, c, [first, second]) == Survivors(k, c, first) + Survivors(k, c, second)
  {
    assert [first, second][..1] == [first] && [first][..0] == [];
    assert Files(k, c, [first]) == [Written(k, c, first)];
    assert AllSurvivors(k, c, [first]) == Survivors(k, c, first);
  }

  lemma SomeSelected(k: Codec, events: seq<Event>, q: Query, e: Event)
    requires e in events && Wanted(k, e, q)
    ensures Select(k, events, q) != []
  {
    NothingSelected(k, events, q);
    var j :| 0 <= j < |events| && events[j] == e;
  }

  lemma StopsAtOnce(k: Codec, a: seq<Event>, b: seq<Event>, q: Query)
    requires a != [] && a[0].timestamp > q.end
    ensures Scan(k, a + b, q) == []
    ensures (exists e :: e in b && Wanted(k, e, q)) ==> Select(k, a + b, q) != []
  {
    assert (a + b)[0] == a[0];
    if e :| e in b && Wanted(k, e, q) {
      assert e in a + b;
      SomeSelected(k, a + b, q, e);
    }
  }

  /** So after a rotation a query whose window ends before the rotated file's first event finds nothing, whatever the base
      file holds for it. */
  lemma RotationHidesEvents(k: Codec, c: Config, base: seq<Event>, rotated: seq<Event>, q: Query)
    requires GoodCodec(k) && Survivors(k, c, rotated) != [] && Survivors(k, c, rotated)[0].timestamp > q.end
    ensures Scan(k, Parsed(k, AllLines([Written(k, c, rotated), Written(k, c, base)])), q) == []
    ensures (exists e :: e in Survivors(k, c, base) && Wanted(k, e, q)) ==>
              Select(k, Survivors(k, c, rotated) + Survivors(k, c, base), q) != []
  {
    TwoFiles(k, c, rotated, base);
    FilesReadBack(k, c, [rotated, base]);
    StopsAtOnce(k, Survivors(k, c, rotated), Survivors(k, c, base), q);
  }
}
