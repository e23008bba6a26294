/** Event lines: what the program prints and how the client parses it back. */
module Events {
  import opened Options
  import opened Numbers
  import opened Digits
  import opened Hex

  // ---------------------------------------------------------------------
  // Splitting and joining
  // ---------------------------------------------------------------------

  /** The position of the first `c`, or -1. */
  function IndexOf(s: string, c: char): (i: int)
    ensures -1 <= i < |s|
    ensures i < 0 ==> c !in s
    ensures i >= 0 ==> s[i] == c && c !in s[..i]
  {
    if s == "" then -1
    else if s[0] == c then 0
    else
      var r := IndexOf(s[1..], c);
      assert s == [s[0]] + s[1..];
      assert r >= 0 ==> s[..r + 1] == [s[0]] + s[1..][..r];
      if r < 0 then -1 else r + 1
  }

  function Split(s: string, c: char): (parts: seq<string>)
    ensures parts != []
    decreases |s|
  {
    var i := IndexOf(s, c);
    if i < 0 then [s] else [s[..i]] + Split(s[i + 1..], c)
  }

  function Join(parts: seq<string>, c: char): string {
    if parts == [] then ""
    else if |parts| == 1 then parts[0]
    else parts[0] + [c] + Join(parts[1..], c)
  }

  ghost predicate FreeOf(parts: seq<string>, c: char) {
    forall i :: 0 <= i < |parts| ==> c !in parts[i]
  }

  lemma JoinCons(first: string, rest: seq<string>, c: char)
    requires rest != []
    ensures Join([first] + rest, c) == first + [c] + Join(rest, c)
  {
    assert ([first] + rest)[1..] == rest;
  }

  lemma SplitOnce(s: string, c: char)
    ensures var i := IndexOf(s, c);
            Split(s, c) == if i < 0 then [s] else [s[..i]] + Split(s[i + 1..], c)
  {
  }

  lemma {:induction false} JoinSplit(s: string, c: char)
    ensures Join(Split(s, c), c) == s && FreeOf(Split(s, c), c)
    decreases |s|
  {
    var i := IndexOf(s, c);
    SplitOnce(s, c);
    hide Split, IndexOf;
    if i >= 0 {
      var rest := Split(s[i + 1..], c);
      JoinSplit(s[i + 1..], c);
      JoinCons(s[..i], rest, c);
      assert s == s[..i] + [c] + s[i + 1..];
      hide Join;
      forall k | 0 <= k < |[s[..i]] + rest| ensures c !in ([s[..i]] + rest)[k] {
        if k > 0 { assert ([s[..i]] + rest)[k] == rest[k - 1]; }
      }
    }
  }

  lemma {:induction false} SplitJoin(parts: seq<string>, c: char)
    requires parts != [] && FreeOf(parts, c)
    ensures Split(Join(parts, c), c) == parts
  {
    if |parts| == 1 {
      SplitOnce(parts[0], c);
      assert parts == [parts[0]];
    } else {
      var first, rest := parts[0], parts[1..];
      assert parts == [first] + rest;
      SplitJoin(rest, c);
      JoinCons(first, rest, c);
      FirstOccurrence(first, c, Join(rest, c));
      SplitOnce(first + [c] + Join(rest, c), c);
    }
  }

  lemma FirstOccurrence(before: string, c: char, after: string)
    requires c !in before
    ensures var s := before + [c] + after;
            IndexOf(s, c) == |before| && s[..|before|] == before && s[|before| + 1..] == after
  {
    var s := before + [c] + after;
    assert s[|before|] == c && forall k :: 0 <= k < |before| ==> s[k] == before[k];
  }

  // ---------------------------------------------------------------------
  // Fields
  // ---------------------------------------------------------------------

  datatype Field = Field(key: string, value: string)

  function FieldText(f: Field): string {
    f.key + ['='] + f.value
  }

  function FieldTexts(fields: seq<Field>): (texts: seq<string>)
    ensures |texts| == |fields|
  {
    seq(|fields|, i requires 0 <= i < |fields| => FieldText(fields[i]))
  }

  /** What the program promises of its fields. */
  predicate Printable(f: Field) {
    f.key != "" && '=' !in f.key && '|' !in f.key && '|' !in f.value
  }

  ghost predicate AllPrintable(fields: seq<Field>) {
    forall i :: 0 <= i < |fields| ==> Printable(fields[i])
  }

  function ReadField(segment: string): Option<Field> {
    var eq := IndexOf(segment, '=');
    if eq <= 0 then None else Some(Field(segment[..eq], segment[eq + 1..]))
  }

  function ReadAll(segments: seq<string>): (r: Option<seq<Field>>)
    ensures r.Some? ==> |r.value| == |segments|
  {
    if segments == [] then Some([]) else
      var last := |segments| - 1;
      match (ReadAll(segments[..last]), ReadField(segments[last]))
      case (Some(fields), Some(field)) => Some(fields + [field])
      case (_, _) => None
  }

  const PROTO_KEY := "__proto__"

  /** Assigning a string to `__proto__` of a plain object does nothing. */
  function Assign(out: map<string, string>, f: Field): map<string, string> {
    if f.key == PROTO_KEY then out else out[f.key := f.value]
  }

  function ObjectOf(fields: seq<Field>): map<string, string> {
    if fields == [] then map[] else Assign(ObjectOf(fields[..|fields| - 1]), fields[|fields| - 1])
  }

  function ParseFields(rest: string): Option<map<string, string>> {
    if rest == "" then Some(map[])
    else
      match ReadAll(Split(rest, '|'))
      case Some(fields) => Some(ObjectOf(fields))
      case None => None
  }

  lemma FieldRoundTrip(f: Field)
    requires Printable(f)
    ensures ReadField(FieldText(f)) == Some(f)
  {
    FirstOccurrence(f.key, '=', f.value);
  }

  lemma FieldRead(segment: string)
    requires '|' !in segment && ReadField(segment).Some?
    ensures Printable(ReadField(segment).value) && FieldText(ReadField(segment).value) == segment
  {
    var eq := IndexOf(segment, '=');
    assert segment == segment[..eq] + ['='] + segment[eq + 1..];
  }

  lemma {:induction false} FieldsRoundTrip(fields: seq<Field>)
    requires AllPrintable(fields)
    ensures ReadAll(FieldTexts(fields)) == Some(fields) && FreeOf(FieldTexts(fields), '|')
  {
    if fields != [] {
      var last := |fields| - 1;
      FieldsRoundTrip(fields[..last]);
      FieldRoundTrip(fields[last]);
      assert FieldTexts(fields)[..last] == FieldTexts(fields[..last]);
      assert fields == fields[..last] + [fields[last]];
      forall i | 0 <= i < |fields| ensures '|' !in FieldTexts(fields)[i] { assert Printable(fields[i]); }
    }
  }

  lemma {:induction false} FieldsRead(segments: seq<string>)
    requires FreeOf(segments, '|') && ReadAll(segments).Some?
    ensures AllPrintable(ReadAll(segments).value) && FieldTexts(ReadAll(segments).value) == segments
  {
    if segments != [] {
      var last := |segments| - 1;
      FieldsRead(segments[..last]);
      FieldRead(segments[last]);
      assert segments == segments[..last] + [segments[last]];
    }
  }

  /** The tail after the kind. */
  function FieldsText(fields: seq<Field>): string {
    Join(FieldTexts(fields), '|')
  }

  lemma FieldsTextEmpty(fields: seq<Field>)
    requires AllPrintable(fields)
    ensures FieldsText(fields) == "" <==> fields == []
  {
    if fields != [] {
      assert Printable(fields[0]);
      assert FieldTexts(fields)[0] == FieldText(fields[0]);
    }
  }

  lemma ParsePrinted(fields: seq<Field>)
    requires AllPrintable(fields)
    ensures ParseFields(FieldsText(fields)) == Some(ObjectOf(fields))
  {
    FieldsTextEmpty(fields);
    if fields != [] {
      FieldsRoundTrip(fields);
      SplitJoin(FieldTexts(fields), '|');
    }
  }

  /** Only printed fields are accepted. */
  lemma ParsedWasPrinted(rest: string) returns (fields: seq<Field>)
    requires ParseFields(rest).Some?
    ensures AllPrintable(fields) && rest == FieldsText(fields) && ParseFields(rest).value == ObjectOf(fields)
  {
    if rest == "" {
      fields := [];
    } else {
      JoinSplit(rest, '|');
      fields := ReadAll(Split(rest, '|')).value;
      FieldsRead(Split(rest, '|'));
    }
  }

  // ---------------------------------------------------------------------
  // Lines
  // ---------------------------------------------------------------------

  const PROGRAM_LOG_PREFIX := "Program log: "
  const EVENT_LINE_PREFIX := "pushflip:"

  const KNOWN_KINDS: set<string> := {
    "initialize", "init_vault", "join_round", "commit_deck", "start_round", "hit", "stay", "end_round",
    "burn_second_chance", "burn_scry", "leave_game", "close_game",
    "init_bounty_board", "add_bounty", "claim_bounty", "close_bounty_board" }

  datatype Event = Event(kind: string, fields: map<string, string>)

  function EventLine(kind: string, fields: seq<Field>): string {
    EVENT_LINE_PREFIX + (kind + [':'] + FieldsText(fields))
  }

  /** The text of a line of two fields, with its prefix and separators. */
  lemma TwoFieldLine(kind: string, first: Field, second: Field)
    ensures EventLine(kind, [first, second])
         == "pushflip:" + kind + ":" + first.key + "=" + first.value + "|" + second.key + "=" + second.value
  {
    var texts := FieldTexts([first, second]);
    assert texts[1..] == [FieldText(second)];
    assert Join(texts[1..], '|') == FieldText(second);
    assert Join(texts, '|') == FieldText(first) + ['|'] + FieldText(second);
  }

  function Stripped(line: string): string {
    if PROGRAM_LOG_PREFIX <= line then line[|PROGRAM_LOG_PREFIX|..] else line
  }

  function ParseEventLog(line: string): Option<Event> {
    var stripped := Stripped(line);
    if !(EVENT_LINE_PREFIX <= stripped) then None
    else
      var afterPrefix := stripped[|EVENT_LINE_PREFIX|..];
      var firstColon := IndexOf(afterPrefix, ':');
      if firstColon < 0 then None
      else
        var kind := afterPrefix[..firstColon];
        if kind !in KNOWN_KINDS then None
        else
          match ParseFields(afterPrefix[firstColon + 1..])
          case Some(fields) => Some(Event(kind, fields))
          case None => None
  }

  lemma KindsHaveNoColon(kind: string)
    requires kind in KNOWN_KINDS
    ensures ':' !in kind
  {
  }

  lemma PrefixesDiffer(kind: string, fields: seq<Field>)
    ensures Stripped(EventLine(kind, fields)) == EventLine(kind, fields)
    ensures Stripped(PROGRAM_LOG_PREFIX + EventLine(kind, fields)) == EventLine(kind, fields)
  {
    assert EventLine(kind, fields)[0] == 'p' && PROGRAM_LOG_PREFIX[0] == 'P';
  }

  lemma ParseEventLine(line: string, kind: string, fields: seq<Field>)
    requires kind in KNOWN_KINDS && AllPrintable(fields) && Stripped(line) == EventLine(kind, fields)
    ensures ParseEventLog(line) == Some(Event(kind, ObjectOf(fields)))
  {
    hide KNOWN_KINDS, FieldsText, ParseFields, ObjectOf;
    KindsHaveNoColon(kind);
    FirstOccurrence(kind, ':', FieldsText(fields));
    assert Stripped(line)[|EVENT_LINE_PREFIX|..] == kind + [':'] + FieldsText(fields);
    ParsePrinted(fields);
  }

  /** The parser accepts exactly the printed lines of known kinds, and reads their fields. */
  lemma AcceptsExactlyPrinted(line: string, e: Event)
    ensures ParseEventLog(line) == Some(e) <==>
      e.kind in KNOWN_KINDS && exists fields ::
        AllPrintable(fields) && Stripped(line) == EventLine(e.kind, fields) && e.fields == ObjectOf(fields)
  {
    hide KNOWN_KINDS, FieldsText, ParseFields, ObjectOf;
    if ParseEventLog(line) == Some(e) {
      var stripped := Stripped(line);
      var afterPrefix := stripped[|EVENT_LINE_PREFIX|..];
      var firstColon := IndexOf(afterPrefix, ':');
      var fields := ParsedWasPrinted(afterPrefix[firstColon + 1..]);
      assert afterPrefix == afterPrefix[..firstColon] + [':'] + afterPrefix[firstColon + 1..];
      assert stripped == EVENT_LINE_PREFIX + afterPrefix;
    }
    if fields :| e.kind in KNOWN_KINDS && AllPrintable(fields)
                 && Stripped(line) == EventLine(e.kind, fields) && e.fields == ObjectOf(fields) {
      ParseEventLine(line, e.kind, fields);
    }
  }

  ghost predicate DistinctKeys(fields: seq<Field>) {
    forall i, j :: 0 <= i < j < |fields| ==> fields[i].key != fields[j].key
  }

  /** The object holds exactly these fields. */
  ghost predicate Holds(out: map<string, string>, fields: seq<Field>) {
    && (forall k :: k in out ==> exists i :: 0 <= i < |fields| && fields[i].key == k)
    && (forall i :: 0 <= i < |fields| ==> fields[i].key in out && out[fields[i].key] == fields[i].value)
  }

  lemma {:induction false} ObjectKeys(fields: seq<Field>)
    requires DistinctKeys(fields)
    ensures forall k :: k in ObjectOf(fields) ==> k != PROTO_KEY && exists i :: 0 <= i < |fields| && fields[i].key == k
    ensures forall i :: 0 <= i < |fields| && fields[i].key != PROTO_KEY ==>
              fields[i].key in ObjectOf(fields) && ObjectOf(fields)[fields[i].key] == fields[i].value
  {
    hide PROTO_KEY;
    if fields != [] {
      var last := |fields| - 1;
      var init := fields[..last];
      ObjectKeys(init);
      forall k | k in ObjectOf(fields) ensures exists i :: 0 <= i < |fields| && fields[i].key == k {
        if k in ObjectOf(init) {
          var i :| 0 <= i < |init| && init[i].key == k;
          assert fields[i].key == k;
        } else {
          assert fields[last].key == k;
        }
      }
      forall i | 0 <= i < |fields| && fields[i].key != PROTO_KEY
        ensures fields[i].key in ObjectOf(fields) && ObjectOf(fields)[fields[i].key] == fields[i].value
      {
        if i < last { assert init[i] == fields[i]; }
      }
    }
  }

  /** Parsing a printed line gives back its kind and, exactly when no key is `__proto__`, all its fields. */
  lemma EventRoundTrip(kind: string, fields: seq<Field>, logged: bool)
    requires kind in KNOWN_KINDS && AllPrintable(fields) && DistinctKeys(fields)
    ensures var line := if logged then PROGRAM_LOG_PREFIX + EventLine(kind, fields) else EventLine(kind, fields);
            && ParseEventLog(line).Some? && ParseEventLog(line).value.kind == kind
            && (Holds(ParseEventLog(line).value.fields, fields)
                <==> forall i :: 0 <= i < |fields| ==> fields[i].key != PROTO_KEY)
  {
    hide KNOWN_KINDS, PROTO_KEY, FieldsText, ParseEventLog, ObjectOf;
    var line := if logged then PROGRAM_LOG_PREFIX + EventLine(kind, fields) else EventLine(kind, fields);
    PrefixesDiffer(kind, fields);
    ParseEventLine(line, kind, fields);
    ObjectKeys(fields);
  }

  /** A `__proto__` key is lost. */
  lemma ProtoIsLost()
    ensures var fields := [Field(PROTO_KEY, "1")];
            ParseEventLog(EventLine("stay", fields)) == Some(Event("stay", map[]))
  {
    var fields := [Field(PROTO_KEY, "1")];
    assert PROTO_KEY == "__proto__";
    PrefixesDiffer("stay", fields);
    assert "stay" in KNOWN_KINDS;
    assert Printable(fields[0]);
    assert fields[..0] == [];
    assert ObjectOf(fields) == map[];
    ParseEventLine(EventLine("stay", fields), "stay", fields);
  }

  // ---------------------------------------------------------------------
  // The parser as it runs
  // ---------------------------------------------------------------------

  lemma ReadOneMore(segments: seq<string>, i: nat)
    requires i < |segments| && ReadAll(segments[..i]).Some?
    ensures ReadAll(segments[..i + 1]) ==
      match ReadField(segments[i])
      case Some(field) => Some(ReadAll(segments[..i]).value + [field])
      case None => None
  {
    assert segments[..i + 1][..i] == segments[..i];
  }

  lemma ObjectOneMore(fields: seq<Field>, f: Field)
    ensures ObjectOf(fields + [f]) == Assign(ObjectOf(fields), f)
  {
    assert (fields + [f])[..|fields|] == fields;
  }

  method ParseFieldList(rest: string) returns (r: Option<map<string, string>>)
    ensures r == ParseFields(rest)
  {
    if |rest| == 0 {
      return Some(map[]);
    }
    var out: map<string, string> := map[];
    var segments := Split(rest, '|');
    ghost var read: seq<Field> := [];
    assert segments[..0] == [];
    hide ReadAll, ObjectOf, Split, Assign;
    for i := 0 to |segments|
      invariant ReadAll(segments[..i]) == Some(read) && out == ObjectOf(read)
    {
      var segment := segments[i];
      ReadOneMore(segments, i);
      var eq := IndexOf(segment, '=');
      if eq <= 0 {
        OneBadSegment(segments, i + 1);
        return None;
      }
      var field := Field(segment[..eq], segment[eq + 1..]);
      ObjectOneMore(read, field);
      read := read + [field];
      out := Assign(out, field);
    }
    assert segments[..|segments|] == segments;
    return Some(out);
  }

  lemma {:induction false} OneBadSegment(segments: seq<string>, k: nat)
    requires k <= |segments| && ReadAll(segments[..k]).None?
    ensures ReadAll(segments).None?
  {
    if k < |segments| {
      assert segments[..|segments| - 1][..k] == segments[..k];
      OneBadSegment(segments[..|segments| - 1], k);
    } else {
      assert segments[..k] == segments;
    }
  }

  datatype GameEvent = GameEvent(logIndex: nat, event: Event)

  /** The events of a transaction: one per line that parses, in log order, each with its position in the log. */
  ghost predicate AreEventsOf(events: seq<GameEvent>, logMessages: seq<string>) {
    && (forall i :: 0 <= i < |events| ==>
          events[i].logIndex < |logMessages| && ParseEventLog(logMessages[events[i].logIndex]) == Some(events[i].event))
    && (forall i, j :: 0 <= i < j < |events| ==> events[i].logIndex < events[j].logIndex)
    && (forall k :: 0 <= k < |logMessages| && ParseEventLog(logMessages[k]).Some? ==>
          exists i :: 0 <= i < |events| && events[i].logIndex == k)
  }

  method ParseTransactionEvents(logMessages: seq<string>) returns (events: seq<GameEvent>)
    ensures AreEventsOf(events, logMessages)
  {
    hide ParseEventLog;
    events := [];
    for i := 0 to |logMessages|
      invariant AreEventsOf(events, logMessages[..i])
    {
      ghost var before := events;
      var event := ParseEventLog(logMessages[i]);
      if event.Some? {
        events := events + [GameEvent(i, event.value)];
        assert events[|before|].logIndex == i;
      }
      forall k | 0 <= k <= i && ParseEventLog(logMessages[k]).Some?
        ensures exists j :: 0 <= j < |events| && events[j].logIndex == k
      {
        if k < i {
          assert ParseEventLog(logMessages[..i][k]).Some?;
          var j :| 0 <= j < |before| && before[j].logIndex == k;
          assert events[j].logIndex == k;
        } else {
          assert events[|before|].logIndex == k;
        }
      }
    }
    assert logMessages[..|logMessages|] == logMessages;
  }
}
