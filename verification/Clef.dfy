/** From a parsed GELF message to a CLEF event. */
module Clef {
  import opened Prelude
  import opened Merge
  import opened Timestamp

  datatype SystemTime = SystemTime(secs: nat, nanos: nat)

  /** What is parsed out of a short message that holds a CLEF event of its own. */
  datatype Embedded = Embedded(timestamp: Option<SystemTime>, level: Option<string>, message: Option<string>,
                               messageTemplate: Option<string>, exception: Option<string>, additional: Fields)

  datatype GelfMessage = GelfMessage(host: Option<string>, shortMessage: string, fullMessage: Option<string>,
                                     timestamp: Option<Decimal>, level: Option<u8>, facility: Option<string>,
                                     line: Option<nat>, file: Option<string>, additional: Option<Value>)

  /** Parsers and clock readings, which are not part of this model, and how the program was built. */
  datatype Surroundings = Surroundings(build: Build, parseClef: string -> Option<Embedded>,
                                       parseRfc3339: string -> Option<SystemTime>, now: SystemTime)

  /** The first candidate there is. */
  function FirstSome<T>(candidates: seq<Option<T>>): Option<T> {
    if candidates == [] then None
    else if candidates[0].Some? then candidates[0]
    else FirstSome(candidates[1..])
  }

  lemma FirstOfTwo<T>(a: Option<T>, b: Option<T>)
    ensures FirstSome([a, b]) == if a.Some? then a else b
  {
    assert [a, b][1..] == [b] && [b][1..] == [];
    assert FirstSome([b][1..]) == None;
    assert FirstSome([b]) == b;
  }

  lemma FirstOfMore<T>(a: Option<T>, b: Option<T>, c: Option<T>, d: Option<T>)
    ensures FirstSome([a, b, c]) == if a.Some? then a else FirstSome([b, c])
    ensures FirstSome([a, b, c, d]) == if a.Some? then a else FirstSome([b, c, d])
  {
  }

  function FindFirst(fields: Fields, names: seq<string>): Option<Value> {
    if names == [] then None
    else if names[0] in fields then Some(fields[names[0]])
    else FindFirst(fields, names[1..])
  }

  function AsText(v: Option<Value>): Option<string> {
    if v.Some? && v.value.Text? then Some(v.value.text) else None
  }

  function LevelName(level: u8): string {
    match level
    case 0 => "emerg"
    case 1 => "alert"
    case 2 => "crit"
    case 3 => "err"
    case 4 => "warning"
    case 5 => "notice"
    case 6 => "info"
    case _ => "debug"
  }

  /** The embedded event, or one that only has the short message as its message. */
  function Base(g: GelfMessage, around: Surroundings): Embedded {
    var parsed := if g.shortMessage != [] && g.shortMessage[0] == '{'
                  then around.parseClef(g.shortMessage) else None;
    if parsed.Some? then parsed.value
    else Embedded(None, None, Some(g.shortMessage), None, None, map[])
  }

  function ParsedTime(fields: Fields, around: Surroundings): Option<SystemTime> {
    var text := AsText(FindFirst(fields, ["timestamp", "ts", "TIMESTAMP", "TS"]));
    if text.Some? then around.parseRfc3339(text.value) else None
  }

  /** Payload names lose one leading underscore. */
  function Strip(name: string): string {
    if name != [] && name[0] == '_' then name[1..] else name
  }

  function Payload(g: GelfMessage): seq<Write> {
    match g.additional
    case Some(Object(members)) =>
      seq(|members|, i requires 0 <= i < |members| => (Strip(members[i].0), members[i].1))
    case _ => []
  }

  function TextField(name: string, text: Option<string>): seq<Write> {
    if text.Some? then [(name, Text(text.value))] else []
  }

  function Envelope(g: GelfMessage): seq<Write> {
    TextField("host", g.host) + TextField("facility", g.facility) + TextField("file", g.file)
    + if g.line.Some? then [("line", Number(g.line.value))] else []
  }

  lemma WriteAllAppend(fields: Fields, a: seq<Write>, w: Write)
    ensures WriteAll(fields, a + [w]) == Override(WriteAll(fields, a), w.0, w.1)
  {
  }

  lemma EnvelopeDistinct(g: GelfMessage)
    ensures Distinct(Envelope(g))
  {
  }

  /** The GELF timestamp is only looked at when the embedded event and its fields offer none. */
  predicate NeedsGelfTime(g: GelfMessage, around: Surroundings) {
    var base := Base(g, around);
    base.timestamp.None? && ParsedTime(base.additional, around).None? && g.timestamp.Some?
  }

  function GelfTime(build: Build, timestamp: Option<Decimal>): Option<SystemTime> {
    if timestamp.None? then None
    else
      match Convert(build, timestamp.value)
      case Time(secs, nanos) => Some(SystemTime(secs, nanos))
      case _ => None
  }

  class ClefMessage {
    var timestamp: Option<SystemTime>
    var level: Option<string>
    var message: Option<string>
    var messageTemplate: Option<string>
    var exception: Option<string>
    var additional: Fields

    constructor (base: Embedded)
      ensures timestamp == base.timestamp && level == base.level && message == base.message
      ensures messageTemplate == base.messageTemplate && exception == base.exception
      ensures additional == base.additional
    {
      timestamp, level, message := base.timestamp, base.level, base.message;
      messageTemplate, exception, additional := base.messageTemplate, base.exception, base.additional;
    }

    method OverrideValue(name: string, value: Value)
      modifies this`additional
      ensures additional == Override(old(additional), name, value)
    {
      var previous := Lookup(additional, name);
      additional := additional[name := value];
      if previous.Some? {
        additional := additional[Shadow(name) := previous.value];
      }
    }

    method OverrideText(name: string, text: Option<string>, ghost base: Fields, ghost sofar: seq<Write>)
      requires additional == WriteAll(base, sofar)
      modifies this`additional
      ensures additional == WriteAll(base, sofar + TextField(name, text))
    {
      if text.Some? {
        OverrideValue(name, Text(text.value));
        WriteAllAppend(base, sofar, (name, Text(text.value)));
      } else {
        assert sofar + [] == sofar;
      }
    }

    method SetLevel(g: GelfMessage)
      modifies this`level
      ensures level == FirstSome(LevelCandidates(old(level), additional, g))
    {
      ghost var own := level;
      var found := AsText(FindFirst(additional, ["level", "lvl", "LVL"]));
      FirstOfMore(own, found, Some(LevelName(if g.level.Some? then g.level.value else 6)), None);
      FirstOfTwo(found, Some(LevelName(if g.level.Some? then g.level.value else 6)));
      if level.None? {
        level := if found.Some? then found else Some(LevelName(if g.level.Some? then g.level.value else 6));
      }
    }

    /** Fails when the GELF timestamp is needed and its conversion overflows. */
    method SetTimestamp(g: GelfMessage, around: Surroundings) returns (ok: bool)
      modifies this`timestamp
      ensures !ok <==> old(timestamp).None? && ParsedTime(additional, around).None?
                       && g.timestamp.Some? && Convert(around.build, g.timestamp.value) == Failed
      ensures ok ==> timestamp == FirstSome(TimeCandidates(old(timestamp), additional, g, around))
    {
      FirstOfMore(timestamp, ParsedTime(additional, around), GelfTime(around.build, g.timestamp), Some(around.now));
      FirstOfMore(ParsedTime(additional, around), GelfTime(around.build, g.timestamp), Some(around.now), None);
      FirstOfTwo(GelfTime(around.build, g.timestamp), Some(around.now));
      if timestamp.None? {
        timestamp := ParsedTime(additional, around);
        if timestamp.None? {
          if g.timestamp.Some? && Convert(around.build, g.timestamp.value) == Failed {
            return false;
          }
          timestamp := GelfTime(around.build, g.timestamp);
          if timestamp.None? {
            timestamp := Some(around.now);
          }
        }
      }
      return true;
    }

    method SetTexts(g: GelfMessage)
      modifies this`exception, this`message
      ensures exception == FirstSome([old(exception), if g.fullMessage == Some(g.shortMessage) then None else g.fullMessage])
      ensures message == if messageTemplate.Some? then old(message)
                         else FirstSome([old(message), AsText(FindFirst(additional, ["message", "msg", "MSG"]))])
    {
      FirstOfTwo(exception, if g.fullMessage == Some(g.shortMessage) then None else g.fullMessage);
      FirstOfTwo(message, AsText(FindFirst(additional, ["message", "msg", "MSG"])));
      if exception.None? && g.fullMessage.Some? && g.fullMessage.value != g.shortMessage {
        exception := g.fullMessage;
      }
      if message.None? && messageTemplate.None? {
        message := AsText(FindFirst(additional, ["message", "msg", "MSG"]));
      }
    }

    /** Sets the payload's fields over those of the embedded event. */
    method SetPayload(g: GelfMessage)
      modifies this`additional
      ensures additional == WriteAll(old(additional), Payload(g))
    {
      var payload := Payload(g);
      for i := 0 to |payload|
        invariant additional == WriteAll(old(additional), payload[..i])
      {
        OverrideValue(payload[i].0, payload[i].1);
        WriteAllAppend(old(additional), payload[..i], payload[i]);
        assert payload[..i + 1] == payload[..i] + [payload[i]];
      }
      assert payload[..|payload|] == payload;
    }

    /** Sets the built-in fields over everything else. */
    method SetEnvelope(g: GelfMessage)
      modifies this`additional
      ensures additional == WriteAll(old(additional), Envelope(g))
    {
      ghost var base := additional;
      OverrideText("host", g.host, base, []);
      assert [] + TextField("host", g.host) == TextField("host", g.host);
      ghost var ws := TextField("host", g.host);
      OverrideText("facility", g.facility, base, ws);
      ws := ws + TextField("facility", g.facility);
      OverrideText("file", g.file, base, ws);
      ws := ws + TextField("file", g.file);
      if g.line.Some? {
        OverrideValue("line", Number(g.line.value));
        WriteAllAppend(base, ws, ("line", Number(g.line.value)));
      } else {
        assert ws + [] == ws;
      }
    }

    /** Merges the fields by priority; the closed form holds whenever no names clash. */
    method SetFields(g: GelfMessage)
      modifies this`additional
      ensures additional == WriteAll(WriteAll(old(additional), Payload(g)), Envelope(g))
      ensures Distinct(Payload(g)) && LayersOf(old(additional), g).NoClash() ==>
                LayersOf(old(additional), g).MergedIn(additional)
    {
      ghost var base := additional;
      SetPayload(g);
      SetEnvelope(g);
      if Distinct(Payload(g)) && LayersOf(base, g).NoClash() {
        EnvelopeDistinct(g);
        MergeClosedForm(base, Payload(g), Envelope(g));
      }
    }
  }

  function LayersOf(base: Fields, g: GelfMessage): Layers {
    Layers(base, AsFields(Payload(g)), AsFields(Envelope(g)))
  }

  function LevelCandidates(own: Option<string>, fields: Fields, g: GelfMessage): seq<Option<string>> {
    [own, AsText(FindFirst(fields, ["level", "lvl", "LVL"])),
     Some(LevelName(if g.level.Some? then g.level.value else 6))]
  }

  function TimeCandidates(own: Option<SystemTime>, fields: Fields, g: GelfMessage, around: Surroundings)
    : seq<Option<SystemTime>>
  {
    [own, ParsedTime(fields, around), GelfTime(around.build, g.timestamp), Some(around.now)]
  }

  /** Converts a message; `None` stands for the panic of a checked build on a timestamp with too many
      places, which an unchecked one, as it is shipped, converts without its fraction. */
  method ToClef(g: GelfMessage, around: Surroundings) returns (r: Option<ClefMessage>)
    ensures r.None? <==> around.build.Checked? && NeedsGelfTime(g, around) && FromDecimal(g.timestamp.value) == Failed
    ensures r.Some? ==>
      var base, clef := Base(g, around), r.value;
      && clef.level == FirstSome(LevelCandidates(base.level, base.additional, g))
      && clef.timestamp == FirstSome(TimeCandidates(base.timestamp, base.additional, g, around))
      && clef.exception == FirstSome([base.exception, if g.fullMessage == Some(g.shortMessage) then None else g.fullMessage])
      && clef.messageTemplate == base.messageTemplate
      && clef.message == (if base.messageTemplate.Some? then base.message
                          else FirstSome([base.message, AsText(FindFirst(base.additional, ["message", "msg", "MSG"]))]))
      && clef.additional == WriteAll(WriteAll(base.additional, Payload(g)), Envelope(g))
      && (Distinct(Payload(g)) && LayersOf(base.additional, g).NoClash() ==>
            LayersOf(base.additional, g).MergedIn(clef.additional))
  {
    hide FirstSome, FindFirst, ParsedTime, AsText, Payload, LayersOf, GelfTime, FromDecimal, FromDecimalUnchecked;
    if g.timestamp.Some? {
      UncheckedNeverFails(g.timestamp.value);
    }
    var clef := new ClefMessage(Base(g, around));
    clef.SetLevel(g);
    var ok := clef.SetTimestamp(g, around);
    if !ok {
      return None;
    }
    clef.SetTexts(g);
    clef.SetFields(g);
    return Some(clef);
  }

  // What the parts of an event are, name by name.

  /** The standard Syslog levels. */
  const SYSLOG: seq<string> := ["emerg", "alert", "crit", "err", "warning", "notice", "info", "debug"]

  lemma FirstSomeAt<T>(candidates: seq<Option<T>>, i: nat)
    requires i < |candidates| && candidates[i].Some? && forall j :: 0 <= j < i ==> candidates[j].None?
    ensures FirstSome(candidates) == candidates[i]
  {
    if i > 0 {
      FirstSomeAt(candidates[1..], i - 1);
    }
  }

  /** The value found is that of the least index whose name is present; there is none if no name is. */
  lemma {:induction false} FindFirstMeaning(fields: Fields, names: seq<string>)
    ensures FindFirst(fields, names) == None <==> forall i :: 0 <= i < |names| ==> names[i] !in fields
    ensures forall i :: 0 <= i < |names| && names[i] in fields && (forall j :: 0 <= j < i ==> names[j] !in fields) ==>
      FindFirst(fields, names) == Some(fields[names[i]])
  {
    if names != [] {
      FindFirstMeaning(fields, names[1..]);
      if names[0] !in fields {
        forall i | 0 <= i < |names| && names[i] in fields && (forall j :: 0 <= j < i ==> names[j] !in fields)
          ensures FindFirst(fields, names) == Some(fields[names[i]])
        {
          assert names[1..][i - 1] == names[i];
          assert forall j :: 0 <= j < i - 1 ==> names[1..][j] == names[j + 1];
        }
        forall i | 0 <= i < |names|
          ensures FindFirst(fields, names) == None ==> names[i] !in fields
        {
          assert i > 0 ==> names[1..][i - 1] == names[i];
        }
      }
    }
  }

  /** The field an event is searched for: the first of the names that is present. */
  lemma FindFirstOfThree(fields: Fields, a: string, b: string, c: string)
    ensures FindFirst(fields, [a, b, c])
         == if a in fields then Some(fields[a]) else if b in fields then Some(fields[b])
            else if c in fields then Some(fields[c]) else None
  {
    FindFirstMeaning(fields, [a, b, c]);
    assert [a, b, c][0] == a && [a, b, c][1] == b && [a, b, c][2] == c;
  }

  lemma FindFirstOfFour(fields: Fields, a: string, b: string, c: string, d: string)
    ensures FindFirst(fields, [a, b, c, d])
         == if a in fields then Some(fields[a]) else if b in fields then Some(fields[b])
            else if c in fields then Some(fields[c]) else if d in fields then Some(fields[d]) else None
  {
    FindFirstMeaning(fields, [a, b, c, d]);
    assert [a, b, c, d][0] == a && [a, b, c, d][1] == b && [a, b, c, d][2] == c && [a, b, c, d][3] == d;
  }

  /** An event's own level comes first, then a text among its fields, then the level of the envelope by its
      Syslog name, where there is none for informational; above debug there is nothing. */
  lemma LevelMeaning(own: Option<string>, fields: Fields, g: GelfMessage)
    ensures var name := if g.level.None? then SYSLOG[6] else if g.level.value <= 7 then SYSLOG[g.level.value] else SYSLOG[7];
      FirstSome(LevelCandidates(own, fields, g))
      == if own.Some? then own
         else if "level" in fields then Some(if fields["level"].Text? then fields["level"].text else name)
         else if "lvl" in fields then Some(if fields["lvl"].Text? then fields["lvl"].text else name)
         else if "LVL" in fields then Some(if fields["LVL"].Text? then fields["LVL"].text else name)
         else Some(name)
  {
    FindFirstOfThree(fields, "level", "lvl", "LVL");
    var cs := LevelCandidates(own, fields, g);
    FirstSomeAt(cs, if cs[0].Some? then 0 else if cs[1].Some? then 1 else 2);
  }

  /** The text of an event's message, if it has none of its own and no template. */
  lemma MessageMeaning(own: Option<string>, fields: Fields)
    ensures FirstSome([own, AsText(FindFirst(fields, ["message", "msg", "MSG"]))])
         == if own.Some? then own
            else if "message" in fields then (if fields["message"].Text? then Some(fields["message"].text) else None)
            else if "msg" in fields then (if fields["msg"].Text? then Some(fields["msg"].text) else None)
            else if "MSG" in fields then (if fields["MSG"].Text? then Some(fields["MSG"].text) else None)
            else None
  {
    FindFirstOfThree(fields, "message", "msg", "MSG");
    FirstOfTwo(own, AsText(FindFirst(fields, ["message", "msg", "MSG"])));
  }

  /** The full message is the exception of an event that has none, unless it repeats the short message. */
  lemma ExceptionMeaning(own: Option<string>, g: GelfMessage)
    ensures FirstSome([own, if g.fullMessage == Some(g.shortMessage) then None else g.fullMessage])
         == if own.Some? then own
            else if g.fullMessage.Some? && g.fullMessage.value != g.shortMessage then g.fullMessage else None
  {
    FirstOfTwo(own, if g.fullMessage == Some(g.shortMessage) then None else g.fullMessage);
  }

  /** A short message that does not begin with a brace, or does not parse, is the message and nothing else;
      otherwise it is the event that is parsed from it. */
  lemma BaseMeaning(g: GelfMessage, around: Surroundings)
    ensures var b := Base(g, around);
      if |g.shortMessage| > 0 && g.shortMessage[0] == '{' && around.parseClef(g.shortMessage).Some?
      then around.parseClef(g.shortMessage) == Some(b)
      else b.message == Some(g.shortMessage) && b.timestamp.None? && b.level.None? && b.messageTemplate.None?
           && b.exception.None? && b.additional == map[]
  {
  }

  /** The time a text among the fields stands for. */
  function FieldTime(v: Value, around: Surroundings): Option<SystemTime> {
    if v.Text? then around.parseRfc3339(v.text) else None
  }

  /** An event's own time comes first, then the first time field if it is a text that parses, then the time of
      the envelope, then the present. */
  lemma TimeMeaning(own: Option<SystemTime>, fields: Fields, g: GelfMessage, around: Surroundings)
    ensures var found := if "timestamp" in fields then FieldTime(fields["timestamp"], around)
                         else if "ts" in fields then FieldTime(fields["ts"], around)
                         else if "TIMESTAMP" in fields then FieldTime(fields["TIMESTAMP"], around)
                         else if "TS" in fields then FieldTime(fields["TS"], around) else None;
      FirstSome(TimeCandidates(own, fields, g, around))
      == if own.Some? then own
         else if found.Some? then found
         else if GelfTime(around.build, g.timestamp).Some? then GelfTime(around.build, g.timestamp)
         else Some(around.now)
  {
    FindFirstOfFour(fields, "timestamp", "ts", "TIMESTAMP", "TS");
    var cs := TimeCandidates(own, fields, g, around);
    FirstSomeAt(cs, if cs[0].Some? then 0 else if cs[1].Some? then 1 else if cs[2].Some? then 2 else 3);
  }

  /** The time of the envelope, exact to the nanosecond up to nine decimal places, if its seconds fit; times
      before the epoch are the epoch. */
  lemma GelfTimeMeaning(build: Build, d: Decimal)
    requires d.scale <= 9
    ensures var t := GelfTime(build, Some(d));
      && (t.None? <==> !d.negative && d.mantissa / Pow10(d.scale) > 9_223_372_036_854_775_807)
      && (t.Some? && d.negative ==> t.value == SystemTime(0, 0))
      && (t.Some? && !d.negative ==>
            t.value.nanos < 1_000_000_000
            && t.value.secs * 1_000_000_000 + t.value.nanos == d.mantissa * Pow10(9 - d.scale))
    ensures GelfTime(build, None) == None
  {
    hide FromDecimal, FromDecimalUnchecked, Pow10;
    Exact(d);
    UncheckedMeaning(d);
    NegativeIsEpoch(d);
  }

  lemma NegativeIsEpoch(d: Decimal)
    ensures d.negative ==> FromDecimal(d) == Time(0, 0)
  {
  }

  function AsValue(text: Option<string>): Option<Value> {
    if text.Some? then Some(Text(text.value)) else None
  }

  /** The built-in fields by name. */
  function BuiltIn(g: GelfMessage, k: string): Option<Value> {
    if k == "host" then AsValue(g.host)
    else if k == "facility" then AsValue(g.facility)
    else if k == "file" then AsValue(g.file)
    else if k == "line" && g.line.Some? then Some(Number(g.line.value))
    else None
  }

  lemma EnvelopeFields(g: GelfMessage, k: string)
    ensures Lookup(AsFields(Envelope(g)), k) == BuiltIn(g, k)
  {
    hide AsFields, TextField;
    var a, b, c := TextField("host", g.host), TextField("facility", g.facility), TextField("file", g.file);
    var d := if g.line.Some? then [("line", Number(g.line.value))] else [];
    LookupAppend(a, b, k);
    LookupAppend(a + b, c, k);
    LookupAppend(a + b + c, d, k);
    OneField("host", g.host, k);
    OneField("facility", g.facility, k);
    OneField("file", g.file, k);
    NoWrite();
    if g.line.Some? {
      OneWrite(("line", Number(g.line.value)));
    }
    FourNames();
  }

  lemma LookupAppend(a: seq<Write>, b: seq<Write>, k: string)
    ensures Lookup(AsFields(a + b), k) == if k in AsFields(b) then Lookup(AsFields(b), k) else Lookup(AsFields(a), k)
  {
    AsFieldsAppend(a, b);
  }

  lemma FourNames()
    ensures "host" != "facility" && "host" != "file" && "host" != "line"
    ensures "facility" != "file" && "facility" != "line" && "file" != "line"
  {
    assert "host"[0] == 'h' && "facility"[0] == 'f' && "file"[0] == 'f' && "line"[0] == 'l';
    assert "facility"[1] == 'a' && "file"[1] == 'i';
  }

  lemma NoWrite()
    ensures AsFields([]) == map[]
  {
  }

  lemma OneWrite(w: Write)
    ensures AsFields([w]) == map[w.0 := w.1]
  {
    assert [w][..0] == [];
  }

  lemma OneField(name: string, text: Option<string>, k: string)
    ensures Lookup(AsFields(TextField(name, text)), k) == if k == name then AsValue(text) else None
  {
    NoWrite();
    if text.Some? {
      OneWrite((name, Text(text.value)));
    }
  }

  /** Member `i` of the payload is for the name `k`: it is `k` with an underscore in front, or `k` itself
      if that does not begin with one. */
  predicate MemberFor(members: seq<(string, Value)>, i: nat, k: string)
    requires i < |members|
  {
    members[i].0 == "_" + k || (members[i].0 == k && !("_" <= k))
  }

  lemma StripMeaning(name: string, k: string)
    ensures Strip(name) == k <==> name == "_" + k || (name == k && !("_" <= k))
  {
    if name == "_" + k {
      assert name[1..] == k;
    }
    if Strip(name) == k && name != [] && name[0] == '_' {
      assert name == [name[0]] + name[1..];
    }
  }

  /** Member `i` is the last of the payload for the name `k`. */
  predicate LastFor(members: seq<(string, Value)>, i: nat, k: string)
    requires i < |members|
  {
    MemberFor(members, i, k) && forall j: nat :: i < j < |members| ==> !MemberFor(members, j, k)
  }

  /** Where the fields of an event come from: a name that is no shadow holds its built-in field, or else the
      last member of the payload that is for it, or else what the embedded event had there. */
  lemma FieldMeaning(fields: Fields, g: GelfMessage, k: string)
    requires !("__" <= k)
    ensures var final := WriteAll(WriteAll(fields, Payload(g)), Envelope(g));
      if BuiltIn(g, k).Some? then Lookup(final, k) == BuiltIn(g, k)
      else match g.additional
        case Some(Object(members)) =>
          && (forall i: nat :: i < |members| && LastFor(members, i, k) ==> Lookup(final, k) == Some(members[i].1))
          && ((forall i: nat :: i < |members| ==> !MemberFor(members, i, k)) ==> Lookup(final, k) == Lookup(fields, k))
        case _ => Lookup(final, k) == Lookup(fields, k)
  {
    hide WriteAll, AsFields, Strip, BuiltIn, Envelope;
    EnvelopeFields(g, k);
    PlainNameHolds(WriteAll(fields, Payload(g)), Envelope(g), k);
    PlainNameHolds(fields, Payload(g), k);
    match g.additional
    case Some(Object(members)) => {
      var ws := Payload(g);
      assert |ws| == |members| && forall i :: 0 <= i < |members| ==> ws[i] == (Strip(members[i].0), members[i].1);
      forall i: nat | i < |members|
        ensures ws[i].0 == k <==> MemberFor(members, i, k)
      {
        StripMeaning(members[i].0, k);
      }
      AsFieldsKeys(ws, k);
      forall i: nat | i < |members| && LastFor(members, i, k)
        ensures k in AsFields(ws) && AsFields(ws)[k] == members[i].1
      {
        LastWriteCounts(ws, i);
      }
    }
    case _ => {
      AsFieldsKeys([], k);
    }
  }
}
