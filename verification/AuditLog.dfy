/** The audit log's writer and reader (`audit_log.rs`): lines with optional signatures, and a time-window query
    that stops early. */
module AuditLog {
  import opened Outcomes

  datatype Category =
    | Access | Configuration | VmLifecycle | ClusterMembership | ResourceManagement | SecurityPolicy | DataAccess
    | Administration | Compliance

  datatype Severity = Info | Warning | Error | Critical

  datatype Actor =
    | User(userId: string, userName: string, roles: seq<string>)
    | System(component: string, systemNode: nat)
    | Service(serviceName: string, apiKeyId: Option<string>)

  datatype Details = Null | Json(text: string)

  datatype Event = Event(
    id: string, timestamp: int, category: Category, severity: Severity, eventType: string, actor: Actor,
    details: Details, nodeId: nat)

  datatype Config = Config(
    minSeverity: Severity, includeDetails: bool, signing: bool, nodeId: nat, maxFileSize: nat, maxFiles: nat)

  datatype Filters = Filters(
    category: Option<Category>, minSeverity: Option<Severity>, eventType: Option<string>, actorPattern: Option<string>)

  datatype Query = Query(start: int, end: int, filters: Option<Filters>)

  /** Serialisation, parsing, signing, and the debug text of an actor, which other libraries provide. */
  datatype Codec = Codec(
    encode: Event -> string, decode: string -> Option<Event>, sign: string -> string, show: Actor -> string)

  const SIG := " SIG:"

  function Rank(s: Severity): nat {
    match s
    case Info => 0
    case Warning => 1
    case Error => 2
    case Critical => 3
  }

  // ---------------------------------------------------------------- strings

  predicate OccursAt(s: string, sub: string, i: nat) {
    i + |sub| <= |s| && s[i..i + |sub|] == sub
  }

  /** The first occurrence at or after `i`. */
  function FindFrom(s: string, sub: string, i: nat): (r: Option<nat>)
    ensures r.Some? ==> i <= r.value && OccursAt(s, sub, r.value) && forall j: nat :: i <= j < r.value ==> !OccursAt(s, sub, j)
    ensures r == None ==> forall j: nat :: i <= j ==> !OccursAt(s, sub, j)
    decreases |s| - i
  {
    if i + |sub| > |s| then None
    else if OccursAt(s, sub, i) then Some(i)
    else if i == |s| then None
    else FindFrom(s, sub, i + 1)
  }

  function Find(s: string, sub: string): Option<nat> {
    FindFrom(s, sub, 0)
  }

  predicate Contains(s: string, sub: string) {
    Find(s, sub).Some?
  }

  predicate Blank(s: string) {
    forall c :: c in s ==> c == ' ' || '\t' <= c <= '\r'
  }

  function LineEnd(text: string): (n: nat)
    ensures n <= |text| && (n < |text| ==> text[n] == '\n') && forall i :: 0 <= i < n ==> text[i] != '\n'
  {
    if text == "" || text[0] == '\n' then 0 else 1 + LineEnd(text[1..])
  }

  function StripReturn(line: string): string {
    if line != "" && line[|line| - 1] == '\r' then line[..|line| - 1] else line
  }

  /** The lines of a file, without their terminators. */
  function Lines(text: string): seq<string>
    decreases |text|
  {
    if text == "" then []
    else
      var n := LineEnd(text);
      [StripReturn(text[..n])] + if n == |text| then [] else Lines(text[n + 1..])
  }

  // ---------------------------------------------------------------- writing

  function Stamp(c: Config, e: Event): Event {
    e.(details := if c.includeDetails then e.details else Null, nodeId := c.nodeId)
  }

  predicate Logged(c: Config, e: Event) {
    Rank(e.severity) >= Rank(c.minSeverity)
  }

  function LineOf(k: Codec, c: Config, e: Event): string {
    var json := k.encode(Stamp(c, e));
    if c.signing then json + SIG + k.sign(json) else json
  }

  /** The file after `log` was called for each event in turn. */
  function Written(k: Codec, c: Config, events: seq<Event>): string {
    if events == [] then ""
    else
      var e := events[|events| - 1];
      Written(k, c, events[..|events| - 1]) + if Logged(c, e) then LineOf(k, c, e) + "\n" else ""
  }

  // ---------------------------------------------------------------- files

  /** A day's file, or one that continues it. */
  datatype Name = Base(day: string) | Rotated(day: string, sequence: nat)

  /** The log directory with its names in the order of their last writes, oldest first; the file being written, and its
      text, which is written to even when the directory no longer lists it. */
  datatype Logs = Logs(files: map<Name, string>, order: seq<Name>, current: Name, text: string)

  ghost predicate Listed(l: Logs) {
    && (forall name :: name in l.order <==> name in l.files)
    && (forall i, j :: 0 <= i < j < |l.order| ==> l.order[i] != l.order[j])
    && (l.current in l.files ==> l.text == l.files[l.current])
  }

  /** Opening for append: what is there stays, a new file is written last. */
  function Opened(files: map<Name, string>, order: seq<Name>, name: Name): Logs {
    if name in files then Logs(files, order, name, files[name])
    else Logs(files[name := ""], order + [name], name, "")
  }

  function Removed(order: seq<Name>, name: Name): seq<Name> {
    if order == [] then []
    else Removed(order[..|order| - 1], name) + if order[|order| - 1] == name then [] else [order[|order| - 1]]
  }

  /** Text appended to the open file. */
  function Wrote(l: Logs, more: string): Logs {
    if l.current in l.files then
      Logs(l.files[l.current := l.text + more], Removed(l.order, l.current) + [l.current], l.current, l.text + more)
    else l.(text := l.text + more)
  }

  /** `cleanup_old_logs`: only the `max` files written last stay. */
  function Trimmed(l: Logs, max: nat): Logs {
    if |l.order| <= max then l
    else
      var n := |l.order| - max;
      l.(files := l.files - (set name | name in l.order[..n]), order := l.order[n..])
  }

  /** The sequence numbers of the day, from `n` on, that are in use. */
  function Taken(files: map<Name, string>, day: string, n: nat): set<Name> {
    set name | name in files && name.Rotated? && name.day == day && name.sequence >= n
  }

  /** The first unused sequence number from `n` on. */
  function FreeSequence(files: map<Name, string>, day: string, n: nat): (free: nat)
    ensures free >= n && Rotated(day, free) !in files && forall i :: n <= i < free ==> Rotated(day, i) in files
    decreases |Taken(files, day, n)|
  {
    if Rotated(day, n) !in files then n
    else
      assert Taken(files, day, n) == Taken(files, day, n + 1) + {Rotated(day, n)};
      FreeSequence(files, day, n + 1)
  }

  /** The file that `rotate` opens on the given day. */
  function Reopened(l: Logs, day: string): Logs {
    Opened(l.files, l.order, if l.current == Base(day) then Rotated(day, FreeSequence(l.files, day, 1)) else Base(day))
  }

  function Rotate(l: Logs, day: string, max: nat): Logs {
    Trimmed(Reopened(l, day), max)
  }

  /** `log` on the given day: the line is appended, and a file that has reached its size is left for another. */
  function AfterLog(k: Codec, c: Config, l: Logs, e: Event, day: string): Logs {
    if !Logged(c, e) then l
    else
      var written := Wrote(l, LineOf(k, c, e) + "\n");
      if |written.text| >= c.maxFileSize then Rotate(written, day, c.maxFiles) else written
  }

  // ---------------------------------------------------------------- reading

  function Unsigned(line: string): string {
    match Find(line, SIG)
    case Some(i) => line[..i]
    case None => line
  }

  /** The events of the parsable lines. */
  function Parsed(k: Codec, lines: seq<string>): seq<Event> {
    if lines == [] then [] else ParsedLine(k, lines[0]) + Parsed(k, lines[1..])
  }

  function ParsedLine(k: Codec, line: string): seq<Event> {
    if EventOf(k, line).Some? then [EventOf(k, line).value] else []
  }

  predicate Matches(k: Codec, e: Event, filters: Option<Filters>) {
    filters.Some? ==>
      var f := filters.value;
      && (f.category.Some? ==> e.category == f.category.value)
      && (f.minSeverity.Some? ==> Rank(e.severity) >= Rank(f.minSeverity.value))
      && (f.eventType.Some? ==> Contains(e.eventType, f.eventType.value))
      && (f.actorPattern.Some? ==> Contains(k.show(e.actor), f.actorPattern.value))
  }

  predicate Wanted(k: Codec, e: Event, q: Query) {
    q.start <= e.timestamp <= q.end && Matches(k, e, q.filters)
  }

  /** The text has the other in it. */
  ghost predicate Occurs(text: string, sub: string) {
    exists before, after :: text == before + sub + after
  }

  /** Info < Warning < Error < Critical. */
  predicate NotBelow(a: Severity, b: Severity) {
    a == b || b == Info || a == Critical || (a == Error && b == Warning)
  }

  /** What a caller asks for, said without the reader's own tests. */
  ghost predicate AskedFor(k: Codec, e: Event, q: Query) {
    && q.start <= e.timestamp && e.timestamp <= q.end
    && (q.filters.Some? && q.filters.value.category.Some? ==> q.filters.value.category.value == e.category)
    && (q.filters.Some? && q.filters.value.minSeverity.Some? ==> NotBelow(e.severity, q.filters.value.minSeverity.value))
    && (q.filters.Some? && q.filters.value.eventType.Some? ==> Occurs(e.eventType, q.filters.value.eventType.value))
    && (q.filters.Some? && q.filters.value.actorPattern.Some? ==> Occurs(k.show(e.actor), q.filters.value.actorPattern.value))
  }

  lemma ContainsIsOccurs(text: string, sub: string)
    ensures Contains(text, sub) <==> Occurs(text, sub)
  {
    if Contains(text, sub) {
      var i := Find(text, sub).value;
      assert text == text[..i] + sub + text[i + |sub|..];
    }
    if before, after :| text == before + sub + after {
      assert text[|before|..|before| + |sub|] == sub;
      assert OccursAt(text, sub, |before|);
    }
  }

  /** The reader's tests keep exactly what is asked for. */
  lemma WantedIsAskedFor(k: Codec, e: Event, q: Query)
    ensures Wanted(k, e, q) <==> AskedFor(k, e, q)
  {
    if q.filters.Some? {
      var f := q.filters.value;
      if f.eventType.Some? {
        ContainsIsOccurs(e.eventType, f.eventType.value);
      }
      if f.actorPattern.Some? {
        ContainsIsOccurs(k.show(e.actor), f.actorPattern.value);
      }
    }
  }

  /** What the query is for: every event of the window that matches. */
  function Select(k: Codec, events: seq<Event>, q: Query): seq<Event> {
    if events == [] then [] else IfWanted(k, events[0], q) + Select(k, events[1..], q)
  }

  function IfWanted(k: Codec, e: Event, q: Query): seq<Event> {
    if Wanted(k, e, q) then [e] else []
  }

  /** What the query does: it stops at the first event later than the window. */
  function Scan(k: Codec, events: seq<Event>, q: Query): seq<Event> {
    if events == [] then []
    else if events[0].timestamp > q.end then []
    else IfWanted(k, events[0], q) + Scan(k, events[1..], q)
  }

  /** Every event returned was read and is asked for. */
  lemma {:induction false} ScanIsSound(k: Codec, events: seq<Event>, q: Query)
    ensures forall e :: e in Scan(k, events, q) ==> e in events && AskedFor(k, e, q)
  {
    if events != [] {
      ScanIsSound(k, events[1..], q);
      WantedIsAskedFor(k, events[0], q);
    }
  }

  function AllLines(files: seq<string>): seq<string> {
    if files == [] then [] else AllLines(files[..|files| - 1]) + Lines(files[|files| - 1])
  }

  // ---------------------------------------------------------------- the objects

  class AuditLogger {
    const config: Config
    var files: map<Name, string>
    var order: seq<Name>
    var current: Name
    var text: string

    function View(): Logs
      reads this
    {
      Logs(files, order, current, text)
    }

    /** The day's file is opened for append. */
    constructor (config: Config, existing: map<Name, string>, written: seq<Name>, day: string)
      ensures this.config == config && View() == Opened(existing, written, Base(day))
    {
      this.config := config;
      current := Base(day);
      files := if Base(day) in existing then existing else existing[Base(day) := ""];
      order := if Base(day) in existing then written else written + [Base(day)];
      text := if Base(day) in existing then existing[Base(day)] else "";
    }

    method Log(k: Codec, event: Event, day: string)
      modifies this
      ensures View() == AfterLog(k, config, old(View()), event, day)
    {
      if Rank(event.severity) < Rank(config.minSeverity) {
        return;
      }
      var entry := if config.includeDetails then event else event.(details := Null);
      entry := entry.(nodeId := config.nodeId);
      var line := k.encode(entry);
      if config.signing {
        line := line + (SIG + k.sign(line));
      }
      assert line == LineOf(k, config, event);
      Write(line + "\n");
      if |text| >= config.maxFileSize {
        RotateFiles(day);
      }
    }

    method Write(more: string)
      modifies this
      ensures View() == Wrote(old(View()), more)
    {
      text := text + more;
      if current in files {
        files := files[current := text];
        order := Removed(order, current) + [current];
      }
    }

    method RotateFiles(day: string)
      modifies this
      ensures View() == Rotate(old(View()), day, config.maxFiles)
    {
      if current == Base(day) {
        var n := 1;
        while Rotated(day, n) in files
          invariant n >= 1 && FreeSequence(files, day, 1) == FreeSequence(files, day, n)
          decreases |Taken(files, day, n)|
        {
          assert Taken(files, day, n) == Taken(files, day, n + 1) + {Rotated(day, n)};
          n := n + 1;
        }
        current := Rotated(day, n);
      } else {
        current := Base(day);
      }
      if current in files {
        text := files[current];
      } else {
        files, order, text := files[current := ""], order + [current], "";
      }
      CleanupOldLogs();
    }

    method CleanupOldLogs()
      modifies this`files, this`order
      ensures View() == Trimmed(old(View()), config.maxFiles)
    {
      if |order| > config.maxFiles {
        var toRemove := |order| - config.maxFiles;
        for i := 0 to toRemove
          invariant order == old(order) && files == old(files) - (set name | name in order[..i])
        {
          assert order[..i + 1] == order[..i] + [order[i]];
          files := files - {order[i]};
        }
        order := order[toRemove..];
      }
    }
  }

  function EventOf(k: Codec, line: string): Option<Event> {
    if Blank(line) then None else k.decode(Unsigned(line))
  }

  predicate Stops(events: seq<Event>, q: Query) {
    exists e :: e in events && e.timestamp > q.end
  }

  lemma {:induction false} ParsedAppends(k: Codec, a: seq<string>, b: seq<string>)
    ensures Parsed(k, a + b) == Parsed(k, a) + Parsed(k, b)
  {
    if a == [] {
      assert a + b == b;
    } else {
      ParsedAppends(k, a[1..], b);
      assert (a + b)[1..] == a[1..] + b && (a + b)[0] == a[0];
      Regroup(ParsedLine(k, a[0]), Parsed(k, a[1..]), Parsed(k, b));
    }
  }

  lemma Regroup(a: seq<Event>, b: seq<Event>, c: seq<Event>)
    ensures a + (b + c) == a + b + c
  {
  }

  lemma {:induction false} ScanAppends(k: Codec, a: seq<Event>, b: seq<Event>, q: Query)
    ensures Scan(k, a + b, q) == if Stops(a, q) then Scan(k, a, q) else Scan(k, a, q) + Scan(k, b, q)
  {
    if a == [] {
      assert a + b == b;
    } else {
      ScanAppends(k, a[1..], b, q);
      StopsFirst(a, q);
      assert (a + b)[1..] == a[1..] + b && (a + b)[0] == a[0];
      Regroup(IfWanted(k, a[0], q), Scan(k, a[1..], q), Scan(k, b, q));
    }
  }

  lemma StopsFirst(a: seq<Event>, q: Query)
    requires a != []
    ensures Stops(a, q) <==> a[0].timestamp > q.end || Stops(a[1..], q)
  {
    assert a == [a[0]] + a[1..];
    assert a[0] in a;
  }

  /** One more line: what it adds to the events read, to the result, and whether it ends the reading. */
  lemma ScanLine(k: Codec, lines: seq<string>, line: string, q: Query)
    requires !Stops(Parsed(k, lines), q)
    ensures var event := EventOf(k, line);
            var all := Parsed(k, lines + [line]);
            && (event == None ==> all == Parsed(k, lines))
            && (event.Some? ==> (Stops(all, q) <==> event.value.timestamp > q.end))
            && (event.Some? ==> Scan(k, all, q) == Scan(k, Parsed(k, lines), q) + if Wanted(k, event.value, q) then [event.value] else [])
  {
    ParsedAppends(k, lines, [line]);
    var event := EventOf(k, line);
    assert Parsed(k, [line]) == if event.Some? then [event.value] else [];
    if event.Some? {
      ScanAppends(k, Parsed(k, lines), [event.value], q);
      assert event.value in Parsed(k, lines) + [event.value];
    }
  }

  lemma NextLine(k: Codec, lines: seq<string>, i: nat, q: Query)
    requires i < |lines| && !Stops(Parsed(k, lines[..i]), q)
    ensures var event := EventOf(k, lines[i]);
            var all := Parsed(k, lines[..i + 1]);
            && (event == None ==> all == Parsed(k, lines[..i]))
            && (event.Some? ==> (Stops(all, q) <==> event.value.timestamp > q.end))
            && (event.Some? && Wanted(k, event.value, q) ==> Scan(k, all, q) == Scan(k, Parsed(k, lines[..i]), q) + [event.value])
            && (event.Some? && !Wanted(k, event.value, q) ==> Scan(k, all, q) == Scan(k, Parsed(k, lines[..i]), q))
  {
    assert lines[..i + 1] == lines[..i] + [lines[i]];
    ScanLine(k, lines[..i], lines[i], q);
  }

  lemma RestIsUnread(k: Codec, lines: seq<string>, i: nat, q: Query)
    requires i <= |lines| && Stops(Parsed(k, lines[..i]), q)
    ensures Scan(k, Parsed(k, lines), q) == Scan(k, Parsed(k, lines[..i]), q) && Stops(Parsed(k, lines), q)
  {
    ParsedAppends(k, lines[..i], lines[i..]);
    assert lines == lines[..i] + lines[i..];
    ScanAppends(k, Parsed(k, lines[..i]), Parsed(k, lines[i..]), q);
    StopsEither(Parsed(k, lines[..i]), Parsed(k, lines[i..]), q);
  }

  /** The loop over the lines of one file; `stopped` when the reader met an event later than the window. */
  method ReadFile(k: Codec, lines: seq<string>, q: Query) returns (events: seq<Event>, stopped: bool)
    ensures events == Scan(k, Parsed(k, lines), q) && stopped == Stops(Parsed(k, lines), q)
  {
    events, stopped := [], false;
    var i := 0;
    while i < |lines|
      invariant 0 <= i <= |lines|
      invariant events == Scan(k, Parsed(k, lines[..i]), q) && !Stops(Parsed(k, lines[..i]), q)
    {
      NextLine(k, lines, i, q);
      var parsed := EventOf(k, lines[i]);
      if parsed.Some? {
        var event := parsed.value;
        if q.start <= event.timestamp <= q.end {
          if Matches(k, event, q.filters) {
            events := events + [event];
          }
        } else if event.timestamp > q.end {
          RestIsUnread(k, lines, i + 1, q);
          stopped := true;
          return;
        }
      }
      i := i + 1;
    }
    assert lines[..i] == lines;
  }

  /** `query_by_time` over the files in reading order. */
  method QueryByTime(k: Codec, files: seq<string>, q: Query) returns (events: seq<Event>)
    ensures events == Scan(k, Parsed(k, AllLines(files)), q)
    ensures forall e :: e in events ==> e in Parsed(k, AllLines(files)) && AskedFor(k, e, q)
  {
    ScanIsSound(k, Parsed(k, AllLines(files)), q);
    events := [];
    var i := 0;
    while i < |files|
      invariant 0 <= i <= |files|
      invariant events == Scan(k, EventsOf(k, files, i), q) && !Stops(EventsOf(k, files, i), q)
    {
      var more, stopped := ReadFile(k, Lines(files[i]), q);
      events := events + more;
      NextFile(k, files, i, q);
      i := i + 1;
      if stopped {
        StopsForGood(k, files, i, q);
        return;
      }
    }
    assert files[..i] == files;
  }

  /** The events read from the first `n` files. */
  function EventsOf(k: Codec, files: seq<string>, n: nat): seq<Event>
    requires n <= |files|
  {
    Parsed(k, AllLines(files[..n]))
  }

  lemma NextFile(k: Codec, files: seq<string>, i: nat, q: Query)
    requires i < |files| && !Stops(EventsOf(k, files, i), q)
    ensures Scan(k, EventsOf(k, files, i + 1), q) == Scan(k, EventsOf(k, files, i), q) + Scan(k, Parsed(k, Lines(files[i])), q)
    ensures Stops(EventsOf(k, files, i + 1), q) <==> Stops(Parsed(k, Lines(files[i])), q)
  {
    assert files[..i + 1][..i] == files[..i];
    ParsedAppends(k, AllLines(files[..i]), Lines(files[i]));
    ScanAppends(k, EventsOf(k, files, i), Parsed(k, Lines(files[i])), q);
    StopsEither(EventsOf(k, files, i), Parsed(k, Lines(files[i])), q);
  }

  lemma StopsEither(a: seq<Event>, b: seq<Event>, q: Query)
    ensures Stops(a + b, q) <==> Stops(a, q) || Stops(b, q)
  {
    assert forall e :: e in a + b <==> e in a || e in b;
  }

  lemma {:induction false} StopsForGood(k: Codec, files: seq<string>, i: nat, q: Query)
    requires i <= |files| && Stops(EventsOf(k, files, i), q)
    ensures Scan(k, Parsed(k, AllLines(files)), q) == Scan(k, EventsOf(k, files, i), q)
    ensures Stops(Parsed(k, AllLines(files)), q)
    decreases |files|
  {
    if i == |files| {
      assert files[..i] == files;
    } else {
      var front, last := files[..|files| - 1], files[|files| - 1];
      assert front[..i] == files[..i];
      StopsForGood(k, front, i, q);
      ParsedAppends(k, AllLines(front), Lines(last));
      ScanAppends(k, Parsed(k, AllLines(front)), Parsed(k, Lines(last)), q);
    }
  }
}
