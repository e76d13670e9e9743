/** What a query of the audit log finds, in terms of the events that were logged and of what was asked. */
module AuditAnswers {
  import opened Outcomes
  import opened AuditLog
  import opened AuditRoundTrip

  /** `r` is `o` as it is recorded: severe enough, with the logger's node, with its details if they are included, and otherwise
      unchanged. */
  predicate RecordOf(c: Config, o: Event, r: Event) {
    && NotBelow(o.severity, c.minSeverity)
    && r.nodeId == c.nodeId
    && r.details == (if c.includeDetails then o.details else Null)
    && r.id == o.id && r.timestamp == o.timestamp && r.category == o.category && r.severity == o.severity
    && r.eventType == o.eventType && r.actor == o.actor
  }

  /** The text of `r` does not contain the separator. */
  ghost predicate Readable(k: Codec, r: Event) {
    !Occurs(k.encode(r), " SIG:")
  }

  lemma LoggedIsRecorded(c: Config, o: Event, r: Event)
    ensures Logged(c, o) && r == Stamp(c, o) <==> RecordOf(c, o, r)
  {
  }

  /** An event severe enough to be logged is read back as its record, or not at all when that has the separator in its text. */
  lemma LineReadsBackAs(k: Codec, c: Config, o: Event, r: Event)
    requires GoodCodec(k) && RecordOf(c, o, r)
    ensures EventOf(k, LineOf(k, c, o)) == if Readable(k, r) then Some(r) else None
  {
    LoggedIsRecorded(c, o, r);
    ContainsIsOccurs(k.encode(r), SIG);
    LineReadsBack(k, c, o);
  }

  /** A signed line is the record's text, the separator, and the signature of that text. */
  lemma SignedLineSplits(k: Codec, c: Config, o: Event, r: Event)
    requires RecordOf(c, o, r) && Readable(k, r) && c.signing
    ensures var line := LineOf(k, c, o);
            && Unsigned(line) == k.encode(r)
            && |Unsigned(line)| + 5 <= |line| && line[|Unsigned(line)| + 5..] == k.sign(Unsigned(line))
  {
    LoggedIsRecorded(c, o, r);
    ContainsIsOccurs(k.encode(r), SIG);
    var json := k.encode(r);
    FindsSignature(json, k.sign(json));
    var line := json + SIG + k.sign(json);
    assert line[..|json|] == json && line[|json| + 5..] == k.sign(json);
  }

  lemma {:induction false} SurvivorsAreRecords(k: Codec, c: Config, events: seq<Event>, r: Event)
    ensures r in Survivors(k, c, events) <==> Readable(k, r) && exists o :: o in events && RecordOf(c, o, r)
  {
    if events != [] {
      var front, last := events[..|events| - 1], events[|events| - 1];
      SurvivorsAreRecords(k, c, front, r);
      LoggedIsRecorded(c, last, r);
      ContainsIsOccurs(k.encode(Stamp(c, last)), SIG);
      assert events == front + [last];
      assert forall o :: o in events <==> o in front || o == last;
    }
  }

  lemma {:induction false} AllSurvivorsAreRecords(k: Codec, c: Config, batches: seq<seq<Event>>, r: Event)
    ensures r in AllSurvivors(k, c, batches) <==>
              Readable(k, r) && exists b, o :: b in batches && o in b && RecordOf(c, o, r)
  {
    if batches != [] {
      var front, last := batches[..|batches| - 1], batches[|batches| - 1];
      AllSurvivorsAreRecords(k, c, front, r);
      SurvivorsAreRecords(k, c, last, r);
      assert batches == front + [last];
      assert forall b :: b in batches <==> b in front || b == last;
    }
  }

  lemma {:induction false} SelectedAreAskedFor(k: Codec, events: seq<Event>, q: Query, e: Event)
    ensures e in Select(k, events, q) <==> e in events && AskedFor(k, e, q)
  {
    if events != [] {
      SelectedAreAskedFor(k, events[1..], q, e);
      WantedIsAskedFor(k, events[0], q);
      assert events == [events[0]] + events[1..];
    }
  }

  /** Whatever was logged to whatever files: the query returns nothing but readable records of logged events that are asked
      for, and returns every one of them when the files read in order are chronological. */
  lemma QueryFinds(k: Codec, c: Config, batches: seq<seq<Event>>, q: Query, r: Event)
    requires GoodCodec(k)
    ensures var result := Scan(k, Parsed(k, AllLines(Files(k, c, batches))), q);
            var due := Readable(k, r) && AskedFor(k, r, q) && exists b, o :: b in batches && o in b && RecordOf(c, o, r);
            && (r in result ==> due)
            && (Chronological(AllSurvivors(k, c, batches)) ==> (r in result <==> due))
  {
    var survivors := AllSurvivors(k, c, batches);
    FilesReadBack(k, c, batches);
    AllSurvivorsAreRecords(k, c, batches, r);
    ScanIsSound(k, survivors, q);
    if Chronological(survivors) {
      ChronologicalIsHarmless(k, survivors, q);
      EarlyStopIsExact(k, survivors, q);
      SelectedAreAskedFor(k, survivors, q, r);
    }
  }
}
