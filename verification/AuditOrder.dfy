/** The order of the audit files: by their names, in which they are read, and by their last writes, in which they are
    deleted. */
module AuditOrder {
  import opened AuditLog
  import opened AuditRoundTrip
  import opened AuditRotation

  // ---------------------------------------------------------------- names

  /** The first place where two texts differ decides. */
  lemma {:induction false} DecidedAt(a: string, b: string, i: nat)
    requires i < |a| && i < |b| && a[..i] == b[..i] && a[i] != b[i]
    ensures Before(a, b) <==> a[i] < b[i]
    decreases i
  {
    if i > 0 {
      assert a[0] == a[..i][0] == b[..i][0] == b[0];
      assert a[1..][..i - 1] == a[..i][1..] && b[1..][..i - 1] == b[..i][1..];
      DecidedAt(a[1..], b[1..], i - 1);
    }
  }

  lemma DigitOrder(i: nat, j: nat)
    requires i < 10 && j < 10
    ensures "0123456789"[i] < "0123456789"[j] <==> i < j
    ensures "0123456789"[i] == "0123456789"[j] <==> i == j
  {
    DigitValue(i);
    DigitValue(j);
  }

  lemma DigitValue(i: nat)
    requires i < 10
    ensures "0123456789"[i] == '0' + i as char
  {
    if i == 0 {
    } else if i == 1 {
    } else if i == 2 {
    } else if i == 3 {
    } else if i == 4 {
    } else if i == 5 {
    } else if i == 6 {
    } else if i == 7 {
    } else if i == 8 {
    } else {
    }
  }

  function Three(h: nat, t: nat, o: nat): string
    requires h < 10 && t < 10 && o < 10
  {
    ["0123456789"[h], "0123456789"[t], "0123456789"[o]]
  }

  lemma ThreeDigits(n: nat) returns (h: nat, t: nat, o: nat)
    requires n < 1000
    ensures h < 10 && t < 10 && o < 10 && n == 100 * h + 10 * t + o && Padded(n) == Three(h, t, o)
  {
    var rest := n / 10;
    h, t, o := rest / 10, rest % 10, n % 10;
    if n < 10 {
      assert Digits(n) == ["0123456789"[o]];
    } else if n < 100 {
      assert Digits(rest) == ["0123456789"[t]];
      assert Digits(n) == ["0123456789"[t], "0123456789"[o]];
    } else {
      assert Digits(h) == ["0123456789"[h]];
      assert Digits(rest) == ["0123456789"[h], "0123456789"[t]];
      assert Digits(n) == ["0123456789"[h], "0123456789"[t], "0123456789"[o]];
    }
  }

  lemma {:induction false} AfterDay(day: string, a: string, b: string, i: nat)
    requires i < |a| && i < |b| && a[..i] == b[..i] && a[i] != b[i]
    ensures Before(RotatedName(day, a), RotatedName(day, b)) <==> a[i] < b[i]
  {
    var p := "audit-" + day + "-";
    var x, y := RotatedName(day, a), RotatedName(day, b);
    assert x == p + a + ".log" && y == p + b + ".log";
    assert x[|p| + i] == a[i] && y[|p| + i] == b[i];
    assert x[..|p| + i] == p + a[..i] && y[..|p| + i] == p + b[..i];
    DecidedAt(x, y, |p| + i);
  }

  lemma ThreeInOrder(day: string, h: nat, t: nat, o: nat, h': nat, t': nat, o': nat, i: nat)
    requires h < 10 && t < 10 && o < 10 && h' < 10 && t' < 10 && o' < 10 && i < 3
    requires i == 0 ==> h < h'
    requires i == 1 ==> h == h' && t < t'
    requires i == 2 ==> h == h' && t == t' && o < o'
    ensures Before(RotatedName(day, Three(h, t, o)), RotatedName(day, Three(h', t', o')))
  {
    DigitOrder(h, h');
    DigitOrder(t, t');
    DigitOrder(o, o');
    var a, b := Three(h, t, o), Three(h', t', o');
    assert a[..i] == b[..i] && a[i] < b[i];
    AfterDay(day, a, b, i);
  }

  lemma SmallInOrder(day: string, n: nat, m: nat)
    requires n < m < 1000
    ensures Before(Shown(Rotated(day, n)), Shown(Rotated(day, m)))
  {
    var h, t, o := ThreeDigits(n);
    var h', t', o' := ThreeDigits(m);
    ThreeInOrder(day, h, t, o, h', t', o', if h != h' then 0 else if t != t' then 1 else 2);
  }

  lemma ThousandIsFirst(day: string)
    ensures !Before(Shown(Rotated(day, 999)), Shown(Rotated(day, 1000)))
  {
    var h, t, o := ThreeDigits(999);
    assert Padded(999)[0] == '9';
    assert Digits(10) == "10" && Digits(100) == "100";
    assert Digits(1000) == Digits(100) + "0" == "1000";
    AfterDay(day, Padded(999), Padded(1000), 0);
  }

  /** Rotated files of one day, numbered up to `last`, are read in the order of their numbers exactly when there are fewer
      than a thousand. */
  lemma NumbersInOrderExactlyBelowThousand(day: string, last: nat)
    ensures (forall n: nat, m: nat :: n < m <= last ==> Before(Shown(Rotated(day, n)), Shown(Rotated(day, m)))) <==> last < 1000
  {
    if last < 1000 {
      forall n: nat, m: nat | n < m <= last
        ensures Before(Shown(Rotated(day, n)), Shown(Rotated(day, m)))
      {
        SmallInOrder(day, n, m);
      }
    } else {
      ThousandIsFirst(day);
    }
  }

  // ---------------------------------------------------------------- last writes

  /** When the file was last written to: the number of the call, or -1. */
  function LastWrite(c: Config, trail: seq<(Name, Event)>, name: Name): int {
    if trail == [] then -1
    else if trail[|trail| - 1].0 == name && Logged(c, trail[|trail| - 1].1) then |trail| - 1
    else LastWrite(c, trail[..|trail| - 1], name)
  }

  lemma {:induction false} LastWriteBound(c: Config, trail: seq<(Name, Event)>, name: Name)
    ensures -1 <= LastWrite(c, trail, name) < |trail|
  {
    if trail != [] {
      LastWriteBound(c, trail[..|trail| - 1], name);
    }
  }

  /** Among the listed files other than `but`, earlier in the order is written earlier. */
  ghost predicate ByLastWrite(c: Config, trail: seq<(Name, Event)>, order: seq<Name>, but: Name) {
    forall i, j :: 0 <= i < j < |order| && order[i] != but && order[j] != but ==>
      LastWrite(c, trail, order[i]) < LastWrite(c, trail, order[j])
  }

  lemma LastWriteAppends(c: Config, trail: seq<(Name, Event)>, at: Name, e: Event, name: Name)
    ensures LastWrite(c, trail + [(at, e)], name) == if at == name && Logged(c, e) then |trail| else LastWrite(c, trail, name)
  {
    assert (trail + [(at, e)])[..|trail|] == trail;
  }

  lemma {:induction false} RemovedIsSubsequence(order: seq<Name>, name: Name, i: nat, j: nat) returns (x: nat, y: nat)
    requires i < j < |Removed(order, name)|
    ensures x < y < |order| && order[x] == Removed(order, name)[i] != name && order[y] == Removed(order, name)[j] != name
  {
    var front, last := order[..|order| - 1], order[|order| - 1];
    if j < |Removed(front, name)| {
      x, y := RemovedIsSubsequence(front, name, i, j);
    } else {
      x := FindIn(front, name, i);
      y := |order| - 1;
    }
  }

  lemma {:induction false} FindIn(order: seq<Name>, name: Name, i: nat) returns (x: nat)
    requires i < |Removed(order, name)|
    ensures x < |order| && order[x] == Removed(order, name)[i] != name
  {
    var front := order[..|order| - 1];
    if i < |Removed(front, name)| {
      x := FindIn(front, name, i);
    } else {
      x := |order| - 1;
    }
  }

  /** After a write all the listed files are in order, the one written last. */
  lemma WriteSorts(c: Config, trail: seq<(Name, Event)>, l: Logs, e: Event, more: string)
    requires Listed(l) && ByLastWrite(c, trail, l.order, l.current) && Logged(c, e)
    ensures forall but :: ByLastWrite(c, trail + [(l.current, e)], Wrote(l, more).order, but)
  {
    var now, x := trail + [(l.current, e)], Wrote(l, more);
    forall i, j | 0 <= i < j < |x.order|
      ensures LastWrite(c, now, x.order[i]) < LastWrite(c, now, x.order[j])
    {
      LastWriteAppends(c, trail, l.current, e, x.order[i]);
      LastWriteAppends(c, trail, l.current, e, x.order[j]);
      LastWriteBound(c, trail, x.order[i]);
      if l.current in l.files {
        var others := Removed(l.order, l.current);
        if j < |others| {
          var a, b := RemovedIsSubsequence(l.order, l.current, i, j);
        } else {
          var a := FindIn(l.order, l.current, i);
        }
      } else {
        assert x.order[i] in l.order && x.order[j] in l.order;
      }
    }
  }

  lemma StepSorts(k: Codec, c: Config, w: World, step: Step)
    requires Listed(w.logs) && ByLastWrite(c, w.trail, w.logs.order, w.logs.current)
    ensures var x := Next(k, c, w, step); ByLastWrite(c, x.trail, x.logs.order, x.logs.current)
  {
    var x := Next(k, c, w, step);
    if Logged(c, step.event) {
      var line := LineOf(k, c, step.event) + "\n";
      WriteSorts(c, w.trail, w.logs, step.event, line);
      var written := Wrote(w.logs, line);
      assert ByLastWrite(c, x.trail, written.order, x.logs.current);
      if |written.text| >= c.maxFileSize {
        RotationKeepsOrder(c, x.trail, written, step.day, c.maxFiles);
      }
    } else {
      forall name: Name
        ensures LastWrite(c, x.trail, name) == LastWrite(c, w.trail, name)
      {
        LastWriteAppends(c, w.trail, w.logs.current, step.event, name);
      }
    }
  }

  lemma RotationKeepsOrder(c: Config, trail: seq<(Name, Event)>, l: Logs, day: string, max: nat)
    requires ByLastWrite(c, trail, l.order, Reopened(l, day).current)
    ensures ByLastWrite(c, trail, Reopened(l, day).order, Reopened(l, day).current)
    ensures ByLastWrite(c, trail, Rotate(l, day, max).order, Rotate(l, day, max).current)
  {
    var x := Reopened(l, day);
    assert forall i :: 0 <= i < |x.order| && x.order[i] != x.current ==> i < |l.order| && x.order[i] == l.order[i];
  }

  lemma {:induction false} RunsAreSorted(k: Codec, c: Config, day: string, steps: seq<Step>)
    ensures var w := After(k, c, day, steps);
            Listed(w.logs) && ByLastWrite(c, w.trail, w.logs.order, w.logs.current)
  {
    RunIsSound(k, c, day, steps);
    if steps != [] {
      RunsAreSorted(k, c, day, steps[..|steps| - 1]);
      StepSorts(k, c, After(k, c, day, steps[..|steps| - 1]), steps[|steps| - 1]);
    }
  }

  /** In every run, a call deletes only files written longer ago than every file it keeps, the one it opens apart. */
  lemma OldestAreDeleted(k: Codec, c: Config, day: string, steps: seq<Step>, step: Step, gone: Name, kept: Name)
    requires var w := After(k, c, day, steps);
             var x := Next(k, c, w, step);
             && gone in w.logs.files && gone !in x.logs.files && gone != x.logs.current
             && kept in w.logs.files && kept in x.logs.files && kept != x.logs.current
    ensures var x := Next(k, c, After(k, c, day, steps), step); LastWrite(c, x.trail, gone) < LastWrite(c, x.trail, kept)
  {
    RunsAreSorted(k, c, day, steps);
    StepDeletesOldest(k, c, After(k, c, day, steps), step, gone, kept);
  }

  lemma DeletionMeansRotation(k: Codec, c: Config, w: World, step: Step, gone: Name)
    requires gone in w.logs.files && gone !in Next(k, c, w, step).logs.files
    ensures Logged(c, step.event)
    ensures Next(k, c, w, step).logs == Rotate(Wrote(w.logs, LineOf(k, c, step.event) + "\n"), step.day, c.maxFiles)
  {
  }

  lemma StepDeletesOldest(k: Codec, c: Config, w: World, step: Step, gone: Name, kept: Name)
    requires Listed(w.logs) && ByLastWrite(c, w.trail, w.logs.order, w.logs.current)
    requires var x := Next(k, c, w, step);
             && gone in w.logs.files && gone !in x.logs.files && gone != x.logs.current
             && kept in x.logs.files && kept != x.logs.current
    ensures var x := Next(k, c, w, step); LastWrite(c, x.trail, gone) < LastWrite(c, x.trail, kept)
  {
    DeletionMeansRotation(k, c, w, step, gone);
    var line := LineOf(k, c, step.event) + "\n";
    WriteSorts(c, w.trail, w.logs, step.event, line);
    WroteIsListed(w.logs, line);
    OldestAreCut(c, Next(k, c, w, step).trail, Wrote(w.logs, line), step.day, gone, kept);
  }

  lemma OldestAreCut(c: Config, trail: seq<(Name, Event)>, l: Logs, day: string, gone: Name, kept: Name)
    requires Listed(l) && ByLastWrite(c, trail, l.order, Reopened(l, day).current)
    requires gone in l.files && gone !in Rotate(l, day, c.maxFiles).files && gone != Reopened(l, day).current
    requires kept in Rotate(l, day, c.maxFiles).files && kept != Reopened(l, day).current
    ensures LastWrite(c, trail, gone) < LastWrite(c, trail, kept)
  {
    RotationKeepsOrder(c, trail, l, day, c.maxFiles);
    OpenedIsListed(l.files, l.order, Reopened(l, day).current);
    OldestOfSorted(c, trail, Reopened(l, day), c.maxFiles, gone, kept);
  }

  lemma OldestOfSorted(c: Config, trail: seq<(Name, Event)>, x: Logs, max: nat, gone: Name, kept: Name)
    requires Listed(x) && ByLastWrite(c, trail, x.order, x.current) && gone != x.current && kept != x.current
    requires gone in x.files && gone !in Trimmed(x, max).files && kept in Trimmed(x, max).files
    ensures LastWrite(c, trail, gone) < LastWrite(c, trail, kept)
  {
    CutFirst(x, max, gone, kept);
    var i, j :| 0 <= i < j < |x.order| && x.order[i] == gone && x.order[j] == kept;
  }

  lemma CutFirst(l: Logs, max: nat, gone: Name, kept: Name)
    requires Listed(l) && gone in l.files && gone !in Trimmed(l, max).files && kept in Trimmed(l, max).files
    ensures exists i, j :: 0 <= i < j < |l.order| && l.order[i] == gone && l.order[j] == kept
  {
    var n := |l.order| - max;
    assert gone in l.order[..n] && kept !in l.order[..n] && kept in l.order;
    var i :| 0 <= i < n && l.order[i] == gone;
    var j :| 0 <= j < |l.order| && l.order[j] == kept;
    assert j >= n;
  }
}
