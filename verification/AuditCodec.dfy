/** A codec that provides what the reading lemmas ask of the JSON and signature libraries, and under it one event that is
    lost and one that is not. */
module AuditCodec {
  import opened Outcomes
  import opened AuditLog
  import opened AuditRoundTrip

  // ---------------------------------------------------------------- fields

  function EscapeChar(c: char): string {
    if c == '\\' then "\\b"
    else if c == '}' then "\\c"
    else if c == '\n' then "\\n"
    else if c == '\r' then "\\r"
    else if c == ',' then "\\s"
    else [c]
  }

  function Escape(s: string): string {
    if s == "" then "" else EscapeChar(s[0]) + Escape(s[1..])
  }

  function Joined(fields: seq<string>): string {
    if fields == [] then "" else Escape(fields[0]) + "," + Joined(fields[1..])
  }

  predicate Plain(s: string) {
    '}' !in s && '\n' !in s && '\r' !in s
  }

  lemma {:induction false} EscapeIsPlain(s: string)
    ensures Plain(Escape(s))
  {
    if s != "" {
      EscapeIsPlain(s[1..]);
    }
  }

  lemma {:induction false} JoinedIsPlain(fields: seq<string>)
    ensures Plain(Joined(fields))
  {
    if fields != [] {
      EscapeIsPlain(fields[0]);
      JoinedIsPlain(fields[1..]);
    }
  }

  lemma HeadsAgree(a: char, b: char, x: string, y: string)
    requires EscapeChar(a) + x == EscapeChar(b) + y
    ensures a == b && x == y
  {
    var s, t := EscapeChar(a), EscapeChar(b);
    assert (s + x)[0] == s[0] && (t + y)[0] == t[0];
    if |s| == 2 && |t| == 2 {
      assert (s + x)[1] == s[1] && (t + y)[1] == t[1];
    }
    assert (s + x)[|s|..] == x && (t + y)[|t|..] == y;
  }

  lemma EscapeNext(a: string, x: string)
    requires a != ""
    ensures Escape(a) + "," + x == EscapeChar(a[0]) + (Escape(a[1..]) + "," + x)
    ensures (Escape(a) + "," + x)[0] != ','
  {
    Associates(EscapeChar(a[0]), Escape(a[1..]), "," + x);
    Associates(Escape(a), ",", x);
    Associates(Escape(a[1..]), ",", x);
  }

  lemma Associates(a: string, b: string, c: string)
    ensures a + b + c == a + (b + c)
  {
  }

  lemma {:induction false} FieldsAgree(a: string, b: string, x: string, y: string)
    requires Escape(a) + "," + x == Escape(b) + "," + y
    ensures a == b && x == y
  {
    if a == "" || b == "" {
      if a != "" {
        EscapeNext(a, x);
      }
      if b != "" {
        EscapeNext(b, y);
      }
      assert ("" + "," + x)[1..] == x && ("" + "," + y)[1..] == y;
    } else {
      EscapeNext(a, x);
      EscapeNext(b, y);
      HeadsAgree(a[0], b[0], Escape(a[1..]) + "," + x, Escape(b[1..]) + "," + y);
      FieldsAgree(a[1..], b[1..], x, y);
      assert a == [a[0]] + a[1..] && b == [b[0]] + b[1..];
    }
  }

  lemma {:induction false} JoinedIsInjective(a: seq<string>, b: seq<string>)
    requires Joined(a) == Joined(b)
    ensures a == b
  {
    if a != [] && b != [] {
      FieldsAgree(a[0], b[0], Joined(a[1..]), Joined(b[1..]));
      JoinedIsInjective(a[1..], b[1..]);
      assert a == [a[0]] + a[1..] && b == [b[0]] + b[1..];
    }
  }

  // ---------------------------------------------------------------- events

  function Bars(n: nat): string {
    seq(n, _ => '|')
  }

  function Signed(n: int): string {
    if n >= 0 then "+" + Bars(n) else "-" + Bars(-n)
  }

  function Index(c: Category): nat {
    match c
    case Access => 0
    case Configuration => 1
    case VmLifecycle => 2
    case ClusterMembership => 3
    case ResourceManagement => 4
    case SecurityPolicy => 5
    case DataAccess => 6
    case Administration => 7
    case Compliance => 8
  }

  /** What kind of actor, and two texts. */
  function ActorFields(a: Actor): (string, string, string) {
    match a
    case User(id, name, _) => ("u", id, name)
    case System(component, node) => ("s", component, Bars(node))
    case Service(name, None) => ("n", name, "")
    case Service(name, Some(key)) => ("k", name, key)
  }

  function Roles(a: Actor): seq<string> {
    if a.User? then a.roles else []
  }

  function DetailFields(d: Details): (string, string) {
    match d
    case Null => ("n", "")
    case Json(text) => ("j", text)
  }

  function Fixed(e: Event): seq<string> {
    var actor := ActorFields(e.actor);
    var details := DetailFields(e.details);
    [e.id, Signed(e.timestamp), Bars(Index(e.category)), Bars(Rank(e.severity)), e.eventType, Bars(e.nodeId),
     details.0, details.1, actor.0, actor.1, actor.2]
  }

  function Encode(e: Event): string {
    "{" + Joined(Fixed(e) + Roles(e.actor)) + "}"
  }

  lemma BarsAgree(a: nat, b: nat)
    ensures Bars(a) == Bars(b) ==> a == b
  {
    assert |Bars(a)| == a && |Bars(b)| == b;
  }

  lemma SignedAgree(a: int, b: int)
    requires Signed(a) == Signed(b)
    ensures a == b
  {
    assert Signed(a)[0] == Signed(b)[0];
    assert |Signed(a)| == |Signed(b)|;
  }

  lemma ActorsAgree(a: Actor, b: Actor)
    requires ActorFields(a) == ActorFields(b) && Roles(a) == Roles(b)
    ensures a == b
  {
    var kind := ActorFields(a).0;
    assert kind[0] == ActorFields(b).0[0];
    if a.System? && b.System? {
      BarsAgree(a.systemNode, b.systemNode);
    }
  }

  lemma DetailsAgree(a: Details, b: Details)
    requires DetailFields(a) == DetailFields(b)
    ensures a == b
  {
    assert DetailFields(a).0[0] == DetailFields(b).0[0];
  }

  lemma SameFields(a: Event, b: Event)
    requires Fixed(a) == Fixed(b) && Roles(a.actor) == Roles(b.actor)
    ensures a == b
  {
    var s, t := Fixed(a), Fixed(b);
    assert s[0] == t[0] && s[1] == t[1] && s[2] == t[2] && s[3] == t[3] && s[4] == t[4] && s[5] == t[5];
    assert s[6] == t[6] && s[7] == t[7] && s[8] == t[8] && s[9] == t[9] && s[10] == t[10];
    SignedAgree(a.timestamp, b.timestamp);
    BarsAgree(Index(a.category), Index(b.category));
    BarsAgree(Rank(a.severity), Rank(b.severity));
    BarsAgree(a.nodeId, b.nodeId);
    DetailsAgree(a.details, b.details);
    ActorsAgree(a.actor, b.actor);
  }

  /** Two events with the same text are the same event. */
  lemma EncodeIsInjective(a: Event, b: Event)
    requires Encode(a) == Encode(b)
    ensures a == b
  {
    var x, y := Fixed(a) + Roles(a.actor), Fixed(b) + Roles(b.actor);
    assert Encode(a)[1..|Encode(a)| - 1] == Joined(x) && Encode(b)[1..|Encode(b)| - 1] == Joined(y);
    JoinedIsInjective(x, y);
    assert x[..11] == Fixed(a) && y[..11] == Fixed(b) && x[11..] == Roles(a.actor) && y[11..] == Roles(b.actor);
    SameFields(a, b);
  }

  // ---------------------------------------------------------------- the codec

  /** Parsing is the inverse of writing, and refuses every text that is not an event's. */
  ghost function Decode(s: string): Option<Event> {
    if exists e :: Encode(e) == s then
      var e :| Encode(e) == s;
      Some(e)
    else None
  }

  ghost function PlainCodec(): Codec {
    Codec(Encode, s => Decode(s), s => "0", actor => "actor")
  }

  lemma TextEndsOnce(e: Event, n: nat)
    requires n < |Encode(e)|
    ensures Encode(e)[0] == '{' && (Encode(e)[n] == '}' <==> n == |Encode(e)| - 1)
    ensures Encode(e)[n] != '\n' && Encode(e)[n] != '\r'
  {
    var body := Joined(Fixed(e) + Roles(e.actor));
    JoinedIsPlain(Fixed(e) + Roles(e.actor));
    assert 0 < n < |Encode(e)| - 1 ==> Encode(e)[n] == body[n - 1] && body[n - 1] in body;
  }

  lemma PrefixIsRefused(e: Event, n: nat)
    requires n < |Encode(e)|
    ensures Decode(Encode(e)[..n]) == None
  {
    if other :| Encode(other) == Encode(e)[..n] {
      var last := |Encode(other)| - 1;
      TextEndsOnce(other, last);
      TextEndsOnce(e, last);
      assert false;
    }
  }

  lemma DecodesEncoded(e: Event)
    ensures Decode(Encode(e)) == Some(e)
  {
    var text := Encode(e);
    assert Encode(e) == text;
    EncodeIsInjective(Decode(text).value, e);
  }

  /** What the reading lemmas ask of the libraries can be met. */
  lemma PlainCodecIsGood()
    ensures GoodCodec(PlainCodec())
  {
    var k := PlainCodec();
    forall e: Event
      ensures k.decode(k.encode(e)) == Some(e) && k.encode(e) != "" && k.encode(e)[0] == '{'
    {
      DecodesEncoded(e);
    }
    forall e: Event, c | c in k.encode(e)
      ensures c != '\n' && c != '\r'
    {
      var n :| 0 <= n < |Encode(e)| && Encode(e)[n] == c;
      TextEndsOnce(e, n);
    }
    forall e: Event, n: nat | n < |k.encode(e)|
      ensures k.decode(k.encode(e)[..n]) == None
    {
      PrefixIsRefused(e, n);
    }
  }

  // ---------------------------------------------------------------- a lost event, and one that is kept

  lemma {:induction false} EscapeUnchanged(s: string)
    requires forall c :: c in s ==> EscapeChar(c) == [c]
    ensures Escape(s) == s
  {
    if s != "" {
      EscapeUnchanged(s[1..]);
      assert s == [s[0]] + s[1..];
    }
  }

  /** Whatever the configuration, an event whose id is the separator is written and never read back. */
  lemma SeparatorIsLost(c: Config, e: Event)
    requires e.id == SIG
    ensures EventOf(PlainCodec(), LineOf(PlainCodec(), c, e)) == None
  {
    SeparatorInText(Stamp(c, e));
    PlainCodecIsGood();
    LineReadsBack(PlainCodec(), c, e);
  }

  lemma SeparatorInText(e: Event)
    requires e.id == SIG
    ensures Contains(Encode(e), SIG)
  {
    var fields := Fixed(e) + Roles(e.actor);
    assert fields[0] == SIG;
    EscapeUnchanged(SIG);
    var rest := Joined(fields[1..]);
    Associates(SIG, ",", rest);
    Associates("{", SIG + ("," + rest), "}");
    Associates(SIG, "," + rest, "}");
    FoundSecond(Encode(e), "," + rest + "}");
  }

  lemma FoundSecond(json: string, rest: string)
    requires json == "{" + (SIG + rest)
    ensures Contains(json, SIG)
  {
    assert json[1..1 + |SIG|] == SIG;
    assert OccursAt(json, SIG, 1);
  }

  lemma {:induction false} EscapeLacks(s: string)
    requires 'S' !in s
    ensures 'S' !in Escape(s)
  {
    if s != "" {
      EscapeLacks(s[1..]);
      assert s[0] in s;
    }
  }

  lemma {:induction false} JoinedLacks(fields: seq<string>)
    requires forall f :: f in fields ==> 'S' !in f
    ensures 'S' !in Joined(fields)
  {
    if fields != [] {
      EscapeLacks(fields[0]);
      JoinedLacks(fields[1..]);
    }
  }

  lemma NoLetterNoSeparator(s: string)
    requires 'S' !in s
    ensures !Contains(s, SIG)
  {
    forall i: nat
      ensures !OccursAt(s, SIG, i)
    {
      assert i + |SIG| <= |s| ==> s[i..i + |SIG|][1] == s[i + 1] != SIG[1];
    }
  }

  /** An event none of whose texts has the separator's first letter is read back. */
  lemma OthersAreKept(c: Config, e: Event)
    requires forall f :: f in Fixed(Stamp(c, e)) + Roles(e.actor) ==> 'S' !in f
    ensures EventOf(PlainCodec(), LineOf(PlainCodec(), c, e)) == Some(Stamp(c, e))
  {
    var k := PlainCodec();
    PlainCodecIsGood();
    JoinedLacks(Fixed(Stamp(c, e)) + Roles(e.actor));
    NoLetterNoSeparator(k.encode(Stamp(c, e)));
    LineReadsBack(k, c, e);
  }
}
