/** Whole runs of the audit logger: when rotation loses events, and what a query of the directory then returns. */
module AuditRotation {
  import opened Outcomes
  import opened AuditLog
  import opened AuditRoundTrip

  // ---------------------------------------------------------------- runs

  /** One call of `log`: the event and the day. */
  datatype Step = Step(event: Event, day: string)

  /** The directory, and as history every event in order with the file that was current when it was logged. */
  datatype World = World(logs: Logs, trail: seq<(Name, Event)>)

  function Next(k: Codec, c: Config, w: World, step: Step): World {
    World(AfterLog(k, c, w.logs, step.event, step.day), w.trail + [(w.logs.current, step.event)])
  }

  function After(k: Codec, c: Config, day: string, steps: seq<Step>): World {
    if steps == [] then World(Opened(map[], [], Base(day)), [])
    else Next(k, c, After(k, c, day, steps[..|steps| - 1]), steps[|steps| - 1])
  }

  /** The events logged while the file was current. */
  function EventsIn(trail: seq<(Name, Event)>, name: Name): seq<Event> {
    if trail == [] then []
    else
      EventsIn(trail[..|trail| - 1], name) + if trail[|trail| - 1].0 == name then [trail[|trail| - 1].1] else []
  }

  /** What the directory lists under the name. */
  function Holding(l: Logs, name: Name): string {
    if name in l.files then l.files[name] else ""
  }

  /** What it would list if every file held exactly the events logged to it. */
  function Text(k: Codec, c: Config, trail: seq<(Name, Event)>, name: Name): string {
    Written(k, c, EventsIn(trail, name))
  }

  predicate Holds(k: Codec, c: Config, w: World, name: Name) {
    Holding(w.logs, name) == Text(k, c, w.trail, name)
  }

  ghost predicate NothingLost(k: Codec, c: Config, w: World) {
    forall name :: Holds(k, c, w, name)
  }

  /** The step rotates, and leaves more files than are to be kept. */
  predicate Spills(k: Codec, c: Config, w: World, step: Step) {
    Logged(c, step.event) &&
    var written := Wrote(w.logs, LineOf(k, c, step.event) + "\n");
    |written.text| >= c.maxFileSize && |Reopened(written, step.day).order| > c.maxFiles
  }

  predicate Spilled(k: Codec, c: Config, day: string, steps: seq<Step>) {
    steps != [] &&
    var front := steps[..|steps| - 1];
    Spilled(k, c, day, front) || Spills(k, c, After(k, c, day, front), steps[|steps| - 1])
  }

  // ---------------------------------------------------------------- what a step adds

  lemma TrailAppends(trail: seq<(Name, Event)>, at: Name, e: Event, name: Name)
    ensures EventsIn(trail + [(at, e)], name) == if at == name then EventsIn(trail, name) + [e] else EventsIn(trail, name)
  {
    assert (trail + [(at, e)])[..|trail|] == trail;
  }

  lemma WrittenAppends(k: Codec, c: Config, events: seq<Event>, e: Event)
    ensures Written(k, c, events + [e]) ==
              Written(k, c, events) + if Logged(c, e) then LineOf(k, c, e) + "\n" else ""
  {
    assert (events + [e])[..|events|] == events;
  }

  lemma TextGrows(k: Codec, c: Config, w: World, step: Step, name: Name)
    ensures Text(k, c, Next(k, c, w, step).trail, name) ==
              Text(k, c, w.trail, name)
              + if name == w.logs.current && Logged(c, step.event) then LineOf(k, c, step.event) + "\n" else ""
  {
    TrailAppends(w.trail, w.logs.current, step.event, name);
    WrittenAppends(k, c, EventsIn(w.trail, name), step.event);
    assert Text(k, c, w.trail, name) + "" == Text(k, c, w.trail, name);
  }

  lemma {:induction false} RemovedHas(order: seq<Name>, name: Name, n: Name)
    ensures n in Removed(order, name) <==> n in order && n != name
  {
    if order != [] {
      RemovedHas(order[..|order| - 1], name, n);
      assert order == order[..|order| - 1] + [order[|order| - 1]];
    }
  }

  lemma {:induction false} RemovedIsDistinct(order: seq<Name>, name: Name)
    requires forall i, j :: 0 <= i < j < |order| ==> order[i] != order[j]
    ensures var r := Removed(order, name); forall i, j :: 0 <= i < j < |r| ==> r[i] != r[j]
  {
    if order != [] {
      var front, last := order[..|order| - 1], order[|order| - 1];
      RemovedIsDistinct(front, name);
      RemovedHas(front, name, last);
      assert last !in front;
    }
  }

  lemma WroteIsListed(l: Logs, more: string)
    requires Listed(l)
    ensures Listed(Wrote(l, more))
  {
    if l.current in l.files {
      var x := Wrote(l, more);
      RemovedIsDistinct(l.order, l.current);
      RemovedHas(l.order, l.current, l.current);
      forall name: Name
        ensures name in x.order <==> name in x.files
      {
        RemovedHas(l.order, l.current, name);
      }
    }
  }

  lemma OpenedIsListed(files: map<Name, string>, order: seq<Name>, name: Name)
    requires forall n :: n in order <==> n in files
    requires forall i, j :: 0 <= i < j < |order| ==> order[i] != order[j]
    ensures Listed(Opened(files, order, name))
  {
  }

  // ---------------------------------------------------------------- what is lost stays lost

  /** Some file lists less than was logged to it. */
  ghost predicate Short(k: Codec, c: Config, w: World) {
    exists name :: |Holding(w.logs, name)| < |Text(k, c, w.trail, name)|
  }

  lemma HoldingGrows(k: Codec, c: Config, w: World, step: Step, name: Name)
    requires Listed(w.logs)
    ensures |Holding(Next(k, c, w, step).logs, name)| <=
              |Holding(w.logs, name)|
              + if name == w.logs.current && Logged(c, step.event) then |LineOf(k, c, step.event) + "\n"| else 0
  {
  }

  lemma ShortStays(k: Codec, c: Config, w: World, step: Step)
    requires Listed(w.logs) && Short(k, c, w)
    ensures Short(k, c, Next(k, c, w, step))
  {
    var name :| |Holding(w.logs, name)| < |Text(k, c, w.trail, name)|;
    HoldingGrows(k, c, w, step, name);
    TextGrows(k, c, w, step, name);
  }

  lemma TrimmedIsListed(l: Logs, max: nat)
    requires Listed(l)
    ensures Listed(Trimmed(l, max))
  {
    if |l.order| > max {
      var n := |l.order| - max;
      forall name: Name
        ensures name in l.order[n..] <==> name in l.order && name !in l.order[..n]
      {
        RestIsOthers(l.order, n, name);
      }
    }
  }

  lemma RestIsOthers(order: seq<Name>, n: nat, name: Name)
    requires n <= |order| && forall i, j :: 0 <= i < j < |order| ==> order[i] != order[j]
    ensures name in order[n..] <==> name in order && name !in order[..n]
  {
    assert order == order[..n] + order[n..];
  }

  lemma NextIsListed(k: Codec, c: Config, w: World, step: Step)
    requires Listed(w.logs)
    ensures Listed(Next(k, c, w, step).logs)
  {
    if Logged(c, step.event) {
      var written := Wrote(w.logs, LineOf(k, c, step.event) + "\n");
      WroteIsListed(w.logs, LineOf(k, c, step.event) + "\n");
      OpenedIsListed(written.files, written.order, Reopened(written, step.day).current);
      TrimmedIsListed(Reopened(written, step.day), c.maxFiles);
    }
  }

  // ---------------------------------------------------------------- until the first spill nothing is lost

  /** Every file but the current one has been written to. */
  ghost predicate Sound(k: Codec, c: Config, w: World) {
    && Listed(w.logs) && w.logs.current in w.logs.files && NothingLost(k, c, w)
    && forall name :: name in w.logs.files && name != w.logs.current ==> w.logs.files[name] != ""
  }

  /** After the line is written, before any rotation: everything is in its file, and no file is empty. */
  lemma WrittenHolds(k: Codec, c: Config, w: World, step: Step, name: Name)
    requires Sound(k, c, w) && Logged(c, step.event)
    ensures var written := Wrote(w.logs, LineOf(k, c, step.event) + "\n");
            && Holding(written, name) == Text(k, c, Next(k, c, w, step).trail, name)
            && (name in written.files ==> written.files[name] != "")
  {
    TextGrows(k, c, w, step, name);
    assert Holds(k, c, w, name);
    assert Text(k, c, w.trail, name) + "" == Text(k, c, w.trail, name);
  }

  lemma SoundStep(k: Codec, c: Config, w: World, step: Step)
    requires Sound(k, c, w) && !Spills(k, c, w, step)
    ensures Sound(k, c, Next(k, c, w, step))
  {
    var x := Next(k, c, w, step);
    NextIsListed(k, c, w, step);
    if Logged(c, step.event) {
      forall name: Name
        ensures Holds(k, c, x, name) && (name in x.logs.files && name != x.logs.current ==> x.logs.files[name] != "")
      {
        WrittenHolds(k, c, w, step, name);
      }
    } else {
      forall name: Name
        ensures Holds(k, c, x, name)
      {
        TextGrows(k, c, w, step, name);
        assert Holds(k, c, w, name);
        assert Text(k, c, w.trail, name) + "" == Text(k, c, w.trail, name);
      }
    }
  }

  /** The file written longest ago is deleted, and it was not empty. */
  lemma SpillLoses(k: Codec, c: Config, w: World, step: Step)
    requires Sound(k, c, w) && Spills(k, c, w, step)
    ensures Short(k, c, Next(k, c, w, step))
  {
    var written := Wrote(w.logs, LineOf(k, c, step.event) + "\n");
    WroteIsListed(w.logs, LineOf(k, c, step.event) + "\n");
    var reopened := Reopened(written, step.day);
    assert written.current in written.order;
    var oldest := written.order[0];
    assert oldest in written.order && reopened.order[0] == oldest;
    WrittenHolds(k, c, w, step, oldest);
    var n := |reopened.order| - c.maxFiles;
    assert reopened.order[..n][0] == oldest;
    assert Holding(Next(k, c, w, step).logs, oldest) == "";
  }

  lemma {:induction false} RunIsSound(k: Codec, c: Config, day: string, steps: seq<Step>)
    ensures Listed(After(k, c, day, steps).logs)
    ensures if Spilled(k, c, day, steps) then Short(k, c, After(k, c, day, steps)) else Sound(k, c, After(k, c, day, steps))
  {
    if steps == [] {
      assert forall name :: Holds(k, c, After(k, c, day, []), name);
    } else {
      var front, last := steps[..|steps| - 1], steps[|steps| - 1];
      RunIsSound(k, c, day, front);
      var w := After(k, c, day, front);
      NextIsListed(k, c, w, last);
      if Spilled(k, c, day, front) {
        ShortStays(k, c, w, last);
      } else if Spills(k, c, w, last) {
        SpillLoses(k, c, w, last);
      } else {
        SoundStep(k, c, w, last);
      }
    }
  }

  function EventsOfSteps(steps: seq<Step>): seq<Event> {
    if steps == [] then [] else EventsOfSteps(steps[..|steps| - 1]) + [steps[|steps| - 1].event]
  }

  function EventsOfTrail(trail: seq<(Name, Event)>): seq<Event> {
    if trail == [] then [] else EventsOfTrail(trail[..|trail| - 1]) + [trail[|trail| - 1].1]
  }

  lemma {:induction false} TrailEvents(k: Codec, c: Config, day: string, steps: seq<Step>)
    ensures EventsOfTrail(After(k, c, day, steps).trail) == EventsOfSteps(steps)
  {
    if steps != [] {
      var front := steps[..|steps| - 1];
      TrailEvents(k, c, day, front);
      var trail := After(k, c, day, steps).trail;
      assert trail[..|trail| - 1] == After(k, c, day, front).trail;
    }
  }

  /** Over any run of any number of days: every file holds exactly the events logged while it was current, in order, exactly
      when no rotation of the run leaves more files than are to be kept. */
  lemma NothingLostExactlyWhenNoneSpilled(k: Codec, c: Config, day: string, steps: seq<Step>)
    ensures EventsOfTrail(After(k, c, day, steps).trail) == EventsOfSteps(steps)
    ensures NothingLost(k, c, After(k, c, day, steps)) <==> !Spilled(k, c, day, steps)
  {
    TrailEvents(k, c, day, steps);
    RunIsSound(k, c, day, steps);
    if Spilled(k, c, day, steps) {
      var w := After(k, c, day, steps);
      var name :| |Holding(w.logs, name)| < |Text(k, c, w.trail, name)|;
      assert !Holds(k, c, w, name);
    }
  }

  /** One file is to be kept: the first rotation deletes the day's file and the event in it. */
  lemma OneFileKept(k: Codec, c: Config, day: string, e: Event)
    requires Logged(c, e) && c.maxFileSize == 1 && c.maxFiles == 1
    ensures After(k, c, day, [Step(e, day)]).logs.files == map[Rotated(day, 1) := ""]
    ensures Text(k, c, After(k, c, day, [Step(e, day)]).trail, Base(day)) == LineOf(k, c, e) + "\n"
  {
    var step := Step(e, day);
    assert [step][..0] == [];
    var w := After(k, c, day, []);
    assert w.logs == Logs(map[Base(day) := ""], [Base(day)], Base(day), "");
    TextGrows(k, c, w, step, Base(day));
    var line := LineOf(k, c, e) + "\n";
    assert "" + line == line && [Base(day)][..0] == [];
    var written := Wrote(w.logs, line);
    assert Removed([Base(day)], Base(day)) == [];
    assert written == Logs(map[Base(day) := line], [Base(day)], Base(day), line);
    var reopened := Reopened(written, day);
    assert reopened.files == map[Base(day) := line, Rotated(day, 1) := ""] && reopened.order == [Base(day), Rotated(day, 1)];
    assert reopened.order[..1] == [Base(day)];
  }

  // ---------------------------------------------------------------- a run, then a query

  function Digits(n: nat): string {
    if n < 10 then ["0123456789"[n]] else Digits(n / 10) + ["0123456789"[n % 10]]
  }

  /** The sequence number, with at least three digits. */
  function Padded(n: nat): string {
    var digits := Digits(n);
    if |digits| == 1 then "00" + digits else if |digits| == 2 then "0" + digits else digits
  }

  function Shown(name: Name): string {
    match name
    case Base(day) => BaseName(day)
    case Rotated(day, sequence) => RotatedName(day, Padded(sequence))
  }

  /** All the names of the directory, in the order in which the reader sorts them. */
  ghost predicate InNameOrder(l: Logs, names: seq<Name>) {
    && (forall name :: name in names <==> name in l.files)
    && (forall i, j :: 0 <= i < j < |names| ==> names[i] != names[j] && Before(Shown(names[i]), Shown(names[j])))
  }

  function Contents(l: Logs, names: seq<Name>): seq<string> {
    if names == [] then [] else Contents(l, names[..|names| - 1]) + [Holding(l, names[|names| - 1])]
  }

  /** The events of each file, in the same order. */
  function Batches(trail: seq<(Name, Event)>, names: seq<Name>): seq<seq<Event>> {
    if names == [] then [] else Batches(trail, names[..|names| - 1]) + [EventsIn(trail, names[|names| - 1])]
  }

  lemma {:induction false} ContentsAreFiles(k: Codec, c: Config, w: World, names: seq<Name>)
    requires NothingLost(k, c, w)
    ensures Contents(w.logs, names) == Files(k, c, Batches(w.trail, names))
  {
    if names != [] {
      var front, last := names[..|names| - 1], names[|names| - 1];
      ContentsAreFiles(k, c, w, front);
      assert Holds(k, c, w, last);
      var batches := Batches(w.trail, names);
      assert batches[..|batches| - 1] == Batches(w.trail, front);
    }
  }

  ghost predicate TrailListed(w: World) {
    forall i :: 0 <= i < |w.trail| ==> w.trail[i].0 in w.logs.files
  }

  /** Until the first spill every file that was ever current is listed. */
  lemma {:induction false} TrailIsListed(k: Codec, c: Config, day: string, steps: seq<Step>)
    requires !Spilled(k, c, day, steps)
    ensures TrailListed(After(k, c, day, steps))
  {
    if steps != [] {
      var front, last := steps[..|steps| - 1], steps[|steps| - 1];
      TrailIsListed(k, c, day, front);
      RunIsSound(k, c, day, front);
      FilesStay(k, c, After(k, c, day, front), last);
    }
  }

  lemma FilesStay(k: Codec, c: Config, w: World, step: Step)
    requires !Spills(k, c, w, step) && TrailListed(w) && w.logs.current in w.logs.files
    ensures TrailListed(Next(k, c, w, step))
  {
    assert w.logs.files.Keys <= Next(k, c, w, step).logs.files.Keys;
  }

  function Kept(k: Codec, c: Config, e: Event): seq<Event> {
    if Logged(c, e) && !Contains(k.encode(Stamp(c, e)), SIG) then [Stamp(c, e)] else []
  }

  lemma SurvivorsAppend(k: Codec, c: Config, events: seq<Event>, e: Event)
    ensures Survivors(k, c, events + [e]) == Survivors(k, c, events) + Kept(k, c, e)
  {
    assert (events + [e])[..|events|] == events;
  }

  lemma SurvivorsOfBatches(k: Codec, c: Config, trail: seq<(Name, Event)>, names: seq<Name>)
    requires names != []
    ensures var front := Batches(trail, names[..|names| - 1]);
            AllSurvivors(k, c, Batches(trail, names)) ==
              AllSurvivors(k, c, front) + Survivors(k, c, EventsIn(trail, names[|names| - 1]))
  {
    var batches := Batches(trail, names);
    assert batches[..|batches| - 1] == Batches(trail, names[..|names| - 1]);
  }

  lemma FileGrows(k: Codec, c: Config, trail: seq<(Name, Event)>, at: Name, e: Event, name: Name)
    ensures multiset(Survivors(k, c, EventsIn(trail + [(at, e)], name))) ==
              multiset(Survivors(k, c, EventsIn(trail, name))) + if at == name then multiset(Kept(k, c, e)) else multiset{}
  {
    TrailAppends(trail, at, e, name);
    SurvivorsAppend(k, c, EventsIn(trail, name), e);
    Together(Survivors(k, c, EventsIn(trail, name)), Kept(k, c, e));
  }

  lemma Together(a: seq<Event>, b: seq<Event>)
    ensures multiset(a + b) == multiset(a) + multiset(b)
  {
  }

  predicate Distinct(names: seq<Name>) {
    names == [] || (names[|names| - 1] !in names[..|names| - 1] && Distinct(names[..|names| - 1]))
  }

  lemma {:induction false} OrderedAreDistinct(names: seq<Name>)
    requires forall i, j :: 0 <= i < j < |names| ==> names[i] != names[j]
    ensures Distinct(names)
  {
    if names != [] {
      OrderedAreDistinct(names[..|names| - 1]);
    }
  }

  lemma InLast(names: seq<Name>, at: Name)
    requires names != []
    ensures at in names <==> at in names[..|names| - 1] || at == names[|names| - 1]
  {
    assert names == names[..|names| - 1] + [names[|names| - 1]];
  }

  /** One more event adds itself, once, to what all the files give back. */
  lemma {:induction false} BatchGrows(k: Codec, c: Config, trail: seq<(Name, Event)>, at: Name, e: Event, names: seq<Name>)
    requires Distinct(names)
    ensures multiset(AllSurvivors(k, c, Batches(trail + [(at, e)], names))) ==
              multiset(AllSurvivors(k, c, Batches(trail, names)))
              + if at in names then multiset(Kept(k, c, e)) else multiset{}
  {
    if names != [] {
      var front, last := names[..|names| - 1], names[|names| - 1];
      BatchGrows(k, c, trail, at, e, front);
      SurvivorsOfBatches(k, c, trail, names);
      SurvivorsOfBatches(k, c, trail + [(at, e)], names);
      FileGrows(k, c, trail, at, e, last);
      InLast(names, at);
      Together(AllSurvivors(k, c, Batches(trail, front)), Survivors(k, c, EventsIn(trail, last)));
      Together(AllSurvivors(k, c, Batches(trail + [(at, e)], front)), Survivors(k, c, EventsIn(trail + [(at, e)], last)));
    }
  }

  lemma {:induction false} NoBatches(k: Codec, c: Config, names: seq<Name>)
    ensures AllSurvivors(k, c, Batches([], names)) == []
  {
    if names != [] {
      NoBatches(k, c, names[..|names| - 1]);
      SurvivorsOfBatches(k, c, [], names);
    }
  }

  /** Every event was logged to one of the files named. */
  predicate Within(trail: seq<(Name, Event)>, names: seq<Name>) {
    trail == [] || (trail[|trail| - 1].0 in names && Within(trail[..|trail| - 1], names))
  }

  lemma {:induction false} ListedIsWithin(trail: seq<(Name, Event)>, names: seq<Name>)
    requires forall i :: 0 <= i < |trail| ==> trail[i].0 in names
    ensures Within(trail, names)
  {
    if trail != [] {
      ListedIsWithin(trail[..|trail| - 1], names);
    }
  }

  lemma BothGrow(k: Codec, c: Config, trail: seq<(Name, Event)>, at: Name, e: Event, names: seq<Name>)
    requires Distinct(names) && at in names
    requires multiset(AllSurvivors(k, c, Batches(trail, names))) == multiset(Survivors(k, c, EventsOfTrail(trail)))
    ensures multiset(AllSurvivors(k, c, Batches(trail + [(at, e)], names))) ==
              multiset(Survivors(k, c, EventsOfTrail(trail + [(at, e)])))
  {
    BatchGrows(k, c, trail, at, e, names);
    assert (trail + [(at, e)])[..|trail|] == trail;
    SurvivorsAppend(k, c, EventsOfTrail(trail), e);
    Together(Survivors(k, c, EventsOfTrail(trail)), Kept(k, c, e));
  }

  lemma {:induction false} AllInBatches(k: Codec, c: Config, trail: seq<(Name, Event)>, names: seq<Name>)
    requires Distinct(names) && Within(trail, names)
    ensures multiset(AllSurvivors(k, c, Batches(trail, names))) == multiset(Survivors(k, c, EventsOfTrail(trail)))
  {
    if trail == [] {
      NoBatches(k, c, names);
    } else {
      var front, last := trail[..|trail| - 1], trail[|trail| - 1];
      AllInBatches(k, c, front, names);
      assert trail == front + [(last.0, last.1)];
      BothGrow(k, c, front, last.0, last.1, names);
    }
  }

  /** How often an event is selected. */
  lemma {:induction false} SelectCounts(k: Codec, events: seq<Event>, q: Query, e: Event)
    ensures multiset(Select(k, events, q))[e] == if Wanted(k, e, q) then multiset(events)[e] else 0
  {
    if events != [] {
      SelectCounts(k, events[1..], q, e);
      assert events == [events[0]] + events[1..];
    }
  }

  lemma SelectPermutes(k: Codec, a: seq<Event>, b: seq<Event>, q: Query)
    requires multiset(a) == multiset(b)
    ensures multiset(Select(k, a, q)) == multiset(Select(k, b, q))
  {
    forall e: Event
      ensures multiset(Select(k, a, q))[e] == multiset(Select(k, b, q))[e]
    {
      SelectCounts(k, a, q, e);
      SelectCounts(k, b, q, e);
    }
  }

  lemma {:induction false} ScanIsPrefix(k: Codec, events: seq<Event>, q: Query)
    ensures Scan(k, events, q) <= Select(k, events, q)
  {
    if events != [] && events[0].timestamp <= q.end {
      ScanIsPrefix(k, events[1..], q);
    }
  }

  lemma SameWhenPermuted(k: Codec, events: seq<Event>, q: Query)
    ensures multiset(Scan(k, events, q)) == multiset(Select(k, events, q)) <==> Scan(k, events, q) == Select(k, events, q)
  {
    ScanIsPrefix(k, events, q);
    var part, all := Scan(k, events, q), Select(k, events, q);
    assert |multiset(part)| == |part| && |multiset(all)| == |all|;
    assert all[..|part|] == part;
  }

  lemma ScanIsWhole(k: Codec, read: seq<Event>, events: seq<Event>, q: Query)
    requires multiset(read) == multiset(events)
    ensures multiset(Scan(k, read, q)) == multiset(Select(k, events, q)) <==> StopIsHarmless(k, read, q)
  {
    SelectPermutes(k, read, events, q);
    SameWhenPermuted(k, read, q);
    EarlyStopIsExact(k, read, q);
  }

  /** After any run that deletes nothing, the files in the order of their names give back the surviving events of the run,
      each as often as it was logged. */
  lemma RunReadsBack(k: Codec, c: Config, day: string, steps: seq<Step>, names: seq<Name>)
    requires GoodCodec(k) && !Spilled(k, c, day, steps) && InNameOrder(After(k, c, day, steps).logs, names)
    ensures var w := After(k, c, day, steps);
            var read := AllSurvivors(k, c, Batches(w.trail, names));
            && Parsed(k, AllLines(Contents(w.logs, names))) == read
            && multiset(read) == multiset(Survivors(k, c, EventsOfSteps(steps)))
  {
    RunIsSound(k, c, day, steps);
    TrailIsListed(k, c, day, steps);
    TrailEvents(k, c, day, steps);
    SoundReadsBack(k, c, After(k, c, day, steps), names);
  }

  lemma SoundReadsBack(k: Codec, c: Config, w: World, names: seq<Name>)
    requires GoodCodec(k) && NothingLost(k, c, w) && InNameOrder(w.logs, names)
    requires TrailListed(w)
    ensures var read := AllSurvivors(k, c, Batches(w.trail, names));
            && Parsed(k, AllLines(Contents(w.logs, names))) == read
            && multiset(read) == multiset(Survivors(k, c, EventsOfTrail(w.trail)))
  {
    ContentsAreFiles(k, c, w, names);
    FilesReadBack(k, c, Batches(w.trail, names));
    ListedIsWithin(w.trail, names);
    OrderedAreDistinct(names);
    AllInBatches(k, c, w.trail, names);
  }

  /** After any run that deletes nothing, the query over the files in the order of their names returns, up to their order,
      exactly the matching events of the window among all the surviving events of the run, if and only if in that order
      no wanted event comes after one that is later than the window. */
  lemma RunThenQueried(k: Codec, c: Config, day: string, steps: seq<Step>, names: seq<Name>, q: Query)
    requires GoodCodec(k) && !Spilled(k, c, day, steps) && InNameOrder(After(k, c, day, steps).logs, names)
    ensures var w := After(k, c, day, steps);
            var result := Scan(k, Parsed(k, AllLines(Contents(w.logs, names))), q);
            multiset(result) == multiset(Select(k, Survivors(k, c, EventsOfSteps(steps)), q)) <==>
            StopIsHarmless(k, AllSurvivors(k, c, Batches(w.trail, names)), q)
  {
    RunReadsBack(k, c, day, steps, names);
    var read := AllSurvivors(k, c, Batches(After(k, c, day, steps).trail, names));
    ScanIsWhole(k, read, Survivors(k, c, EventsOfSteps(steps)), q);
  }

  // ---------------------------------------------------------------- a run whose query misses an event

  lemma OneRotation(k: Codec, c: Config, day: string, e: Event)
    requires Logged(c, e) && c.maxFileSize == 1 && c.maxFiles >= 2
    ensures var line := LineOf(k, c, e) + "\n";
            var w := After(k, c, day, [Step(e, day)]);
            && !Spilled(k, c, day, [Step(e, day)])
            && w.logs == Logs(map[Base(day) := line, Rotated(day, 1) := ""], [Base(day), Rotated(day, 1)], Rotated(day, 1), "")
            && w.trail == [(Base(day), e)]
  {
    var step := Step(e, day);
    assert [step][..0] == [];
    var w := After(k, c, day, []);
    assert w.logs == Logs(map[Base(day) := ""], [Base(day)], Base(day), "");
    var line := LineOf(k, c, e) + "\n";
    assert "" + line == line;
    assert Removed([Base(day)], Base(day)) == [];
    var written := Wrote(w.logs, line);
    assert written == Logs(map[Base(day) := line], [Base(day)], Base(day), line);
    var reopened := Reopened(written, day);
    assert reopened.files == map[Base(day) := line, Rotated(day, 1) := ""] && reopened.order == [Base(day), Rotated(day, 1)];
  }

  lemma TwoRotations(k: Codec, c: Config, day: string, first: Event, second: Event)
    requires Logged(c, first) && Logged(c, second) && c.maxFileSize == 1 && c.maxFiles >= 2
    ensures var steps := [Step(first, day), Step(second, day)];
            var w := After(k, c, day, steps);
            && !Spilled(k, c, day, steps)
            && w.logs.files == map[Base(day) := LineOf(k, c, first) + "\n", Rotated(day, 1) := LineOf(k, c, second) + "\n"]
            && w.trail == [(Base(day), first), (Rotated(day, 1), second)]
  {
    var steps := [Step(first, day), Step(second, day)];
    assert steps[..1] == [Step(first, day)];
    OneRotation(k, c, day, first);
    var w := After(k, c, day, steps[..1]);
    var line := LineOf(k, c, second) + "\n";
    assert "" + line == line;
    var order := [Base(day), Rotated(day, 1)];
    assert order[..1] == [Base(day)] && [Base(day)][..0] == [] && Removed([Base(day)], Rotated(day, 1)) == [Base(day)];
    assert Removed(order, Rotated(day, 1)) == [Base(day)];
    var written := Wrote(w.logs, line);
    assert written.order == order && written.current == Rotated(day, 1);
  }

  lemma SurvivorsOfOne(k: Codec, c: Config, e: Event)
    ensures Survivors(k, c, [e]) == Kept(k, c, e)
  {
    SurvivorsAppend(k, c, [], e);
    assert [] + [e] == [e];
  }

  /** Two events logged on one day, the second in the rotated file, which is read first: a query for the first whose window
      ends before the second returns nothing, although nothing was deleted and both can be read back. */
  lemma RunHidesEvent(k: Codec, c: Config, day: string, first: Event, second: Event, q: Query)
    requires GoodCodec(k) && c.maxFileSize == 1 && c.maxFiles >= 2
    requires Kept(k, c, first) != [] && Kept(k, c, second) != []
    requires Wanted(k, Stamp(c, first), q) && second.timestamp > q.end
    ensures var steps := [Step(first, day), Step(second, day)];
            var l := After(k, c, day, steps).logs;
            var names := [Rotated(day, 1), Base(day)];
            && !Spilled(k, c, day, steps) && InNameOrder(l, names)
            && Scan(k, Parsed(k, AllLines(Contents(l, names))), q) == []
            && Stamp(c, first) in Select(k, Survivors(k, c, EventsOfSteps(steps)), q)
  {
    var steps := [Step(first, day), Step(second, day)];
    TwoRotations(k, c, day, first, second);
    TwoInOrder(After(k, c, day, steps).logs, day);
    var l := After(k, c, day, steps).logs;
    TwoContents(l, Rotated(day, 1), Base(day));
    assert Contents(l, [Rotated(day, 1), Base(day)]) == [LineOf(k, c, second) + "\n", LineOf(k, c, first) + "\n"];
    TwoKept(k, c, first, second, q);
    EventsOfTwo(Step(first, day), Step(second, day));
  }

  lemma EventsOfTwo(a: Step, b: Step)
    ensures EventsOfSteps([a, b]) == [a.event, b.event]
  {
    assert [a, b][..1] == [a] && [a][..0] == [];
    assert EventsOfSteps([a]) == [a.event];
  }

  lemma TwoInOrder(l: Logs, day: string)
    requires l.files.Keys == {Base(day), Rotated(day, 1)}
    ensures InNameOrder(l, [Rotated(day, 1), Base(day)])
  {
    RotatedIsReadFirst(day, Padded(1));
  }

  lemma TwoKept(k: Codec, c: Config, first: Event, second: Event, q: Query)
    requires GoodCodec(k) && Kept(k, c, first) != [] && Kept(k, c, second) != []
    requires Wanted(k, Stamp(c, first), q) && second.timestamp > q.end
    ensures Scan(k, Parsed(k, AllLines([LineOf(k, c, second) + "\n", LineOf(k, c, first) + "\n"])), q) == []
    ensures Stamp(c, first) in Select(k, Survivors(k, c, [first, second]), q)
  {
    KeptAlone(k, c, first);
    KeptAlone(k, c, second);
    RotationHidesEvents(k, c, [first], [second], q);
    SurvivorsAppend(k, c, [first], second);
    assert [first] + [second] == [first, second];
    FirstSelected(k, Survivors(k, c, [first]) + Kept(k, c, second), q);
  }

  /** The file with one kept event. */
  lemma KeptAlone(k: Codec, c: Config, e: Event)
    requires Kept(k, c, e) != []
    ensures Written(k, c, [e]) == LineOf(k, c, e) + "\n" && Survivors(k, c, [e]) == [Stamp(c, e)]
  {
    WrittenOne(k, c, e);
    SurvivorsOfOne(k, c, e);
  }

  lemma FirstSelected(k: Codec, events: seq<Event>, q: Query)
    requires events != [] && Wanted(k, events[0], q)
    ensures events[0] in Select(k, events, q)
  {
    assert Select(k, events, q)[0] == events[0];
  }

  lemma WrittenOne(k: Codec, c: Config, e: Event)
    requires Logged(c, e)
    ensures Written(k, c, [e]) == LineOf(k, c, e) + "\n"
  {
    WrittenAppends(k, c, [], e);
    assert [] + [e] == [e];
  }

  lemma TwoContents(l: Logs, a: Name, b: Name)
    ensures Contents(l, [a, b]) == [Holding(l, a), Holding(l, b)]
  {
    assert [a, b][..1] == [a] && [a][..0] == [];
    assert Contents(l, [a]) == [Holding(l, a)];
  }
}
