/**
 Reading a queue message as a Meet event (connector_service/meet_events.py).

 A message carries attributes and a text. What the two library decoders make of a text is part of the text
 here; which decoder is asked, in what order, and what is done with the value is the code's.
 */
module MeetEvents {
  import opened Wrappers

  const RECORDING_FILE_GENERATED := "google.workspace.meet.recording.v2.fileGenerated"
  const RECORDS := "conferenceRecords/"

  datatype MeetEvent = MeetEvent(eventType: string, resourceName: string, conferenceRecord: string, source: string) {
    predicate IsRecordingReady() { eventType == RECORDING_FILE_GENERATED }
  }

  /** A decoded value; `Other` is a number, a boolean or an array. An object has its fields in the order of
      the dictionary it becomes. */
  datatype Json = Null | Text(text: string) | Other | Object(fields: seq<Field>)

  datatype Field = Field(key: string, value: Json)

  /** The text of a message: its value as JSON, None when it is not JSON; and the value of the bytes it
      stands for in base64, None when it is not base64 or those bytes are not JSON. It may well be both. */
  datatype Data = Data(asJson: Option<Json>, asBase64: Option<Json>)

  type Attributes = map<string, string>

  /** An event; nothing, for an unusable message; or an exception. */
  datatype Reading = Readable(event: MeetEvent) | Unreadable | Breaking

  datatype Content = Content(attributes: Attributes, data: Data) {
    function EventType(): string {
      var own := Attribute(attributes, "ce-type");
      if own != "" then own else Attribute(attributes, "type")
    }

    function Reading(): Reading {
      if EventType() == "" then Unreadable
      else match Decoded(data)
           case Null => Unreadable
           case Object(fields) =>
             var name := ResourceNameOf(fields);
             if name == "" then Unreadable
             else Readable(MeetEvent(EventType(), name, ConferenceRecordOf(name), Attribute(attributes, "ce-source")))
           case _ => Breaking
    }

    /** The message has a type, and its text is JSON, but neither an object nor null. */
    predicate Breaks() {
      && EventType() != ""
      && data.asJson.Some? && !data.asJson.value.Null? && !data.asJson.value.Object?
    }
  }

  function Attribute(attributes: Attributes, key: string): string {
    if key in attributes then attributes[key] else ""
  }

  /** JSON first, base64 next; only the second is checked to be an object. No value is the same as null. */
  function Decoded(data: Data): Json {
    match data.asJson
    case Some(value) => value
    case None => if data.asBase64.Some? && data.asBase64.value.Object? then data.asBase64.value else Null
  }

  function Get(fields: seq<Field>, key: string): Option<Json> {
    if fields == [] then None else if fields[0].key == key then Some(fields[0].value) else Get(fields[1..], key)
  }

  /** The `name` of an object, when it is a text. */
  function NameField(fields: seq<Field>): string {
    match Get(fields, "name")
    case Some(Text(text)) => text
    case _ => ""
  }

  function NameOf(value: Json): string {
    if value.Object? then NameField(value.fields) else ""
  }

  function FirstNamed(fields: seq<Field>): string {
    if fields == [] then ""
    else if NameOf(fields[0].value) != "" then NameOf(fields[0].value)
    else FirstNamed(fields[1..])
  }

  function ResourceNameOf(fields: seq<Field>): string {
    if FirstNamed(fields) != "" then FirstNamed(fields) else NameField(fields)
  }

  function UpToSlash(s: string): string {
    if s == "" || s[0] == '/' then "" else [s[0]] + UpToSlash(s[1..])
  }

  function ConferenceRecordOf(resourceName: string): string {
    if RECORDS <= resourceName then RECORDS + UpToSlash(resourceName[|RECORDS|..]) else ""
  }

  method FirstResourceName(fields: seq<Field>) returns (name: string)
    ensures name == ResourceNameOf(fields)
  {
    for i := 0 to |fields|
      invariant FirstNamed(fields) == FirstNamed(fields[i..])
    {
      assert fields[i..][1..] == fields[i + 1..];
      name := NameOf(fields[i].value);
      if name != "" {
        return;
      }
    }
    name := NameField(fields);
  }

  method ParseMessage(content: Content) returns (r: Reading)
    ensures r == content.Reading()
  {
    var eventType := content.EventType();
    if eventType == "" {
      return Unreadable;
    }
    var payload := Decoded(content.data);
    match payload {
      case Null => return Unreadable;
      case Object(fields) =>
        var name := FirstResourceName(fields);
        if name == "" {
          return Unreadable;
        }
        var source := Attribute(content.attributes, "ce-source");
        return Readable(MeetEvent(eventType, name, ConferenceRecordOf(name), source));
      case _ => return Breaking;
    }
  }

  // ---------------------------------------------------------------------------
  // Which messages are read, and which break the reading
  // ---------------------------------------------------------------------------

  /** Reading raises for the texts that are JSON without being an object or null, under a type, and for no
      others: not without a type, and never by way of base64. */
  lemma BreakingExactly(content: Content)
    ensures content.Reading().Breaking? <==> content.Breaks()
  {
  }

  /** The resource is named by the first object among the fields that has a name. */
  lemma {:induction false} FirstNamedIsFirst(fields: seq<Field>, k: nat)
    requires k < |fields| && NameOf(fields[k].value) != ""
    requires forall i :: 0 <= i < k ==> NameOf(fields[i].value) == ""
    ensures FirstNamed(fields) == NameOf(fields[k].value)
  {
    if k > 0 {
      FirstNamedIsFirst(fields[1..], k - 1);
    }
  }

  ghost predicate Named(fields: seq<Field>) {
    NameField(fields) != "" || exists i :: 0 <= i < |fields| && NameOf(fields[i].value) != ""
  }

  lemma {:induction false} FirstNamedIsNamed(fields: seq<Field>)
    requires FirstNamed(fields) != ""
    ensures exists i :: 0 <= i < |fields| && NameOf(fields[i].value) != ""
  {
    if NameOf(fields[0].value) == "" {
      FirstNamedIsNamed(fields[1..]);
      var i :| 0 <= i < |fields[1..]| && NameOf(fields[1..][i].value) != "";
      assert NameOf(fields[i + 1].value) != "";
    }
  }

  /** The text is JSON for an object with these fields, or is not JSON and is base64 for it. */
  predicate GivesObject(data: Data, fields: seq<Field>) {
    data.asJson == Some(Object(fields)) || (data.asJson == None && data.asBase64 == Some(Object(fields)))
  }

  /** A message is read if and only if it has a type and an object with a name in it, given as JSON, or as
      base64 by a text that is not JSON itself. */
  lemma ReadableExactly(content: Content)
    ensures content.Reading().Readable? <==>
              content.EventType() != "" && exists fields :: GivesObject(content.data, fields) && Named(fields)
  {
    if Decoded(content.data).Object? {
      var fields := Decoded(content.data).fields;
      assert GivesObject(content.data, fields);
      if FirstNamed(fields) != "" {
        FirstNamedIsNamed(fields);
      } else if k :| 0 <= k < |fields| && NameOf(fields[k].value) != "" {
        FirstFrom(fields, k);
      }
    }
  }

  lemma {:induction false} FirstFrom(fields: seq<Field>, k: nat)
    requires k < |fields| && NameOf(fields[k].value) != ""
    ensures FirstNamed(fields) != ""
  {
    if k > 0 {
      FirstFrom(fields[1..], k - 1);
    }
  }

  // ---------------------------------------------------------------------------
  // Which event is read, from the attributes and the value
  // ---------------------------------------------------------------------------

  /** The type is the CloudEvents one, or failing that the plain one. */
  predicate Typed(attributes: Attributes, eventType: string) {
    && eventType != ""
    && if "ce-type" in attributes && attributes["ce-type"] != "" then attributes["ce-type"] == eventType
       else "type" in attributes && attributes["type"] == eventType
  }

  ghost predicate HasField(fields: seq<Field>, key: string, value: Json) {
    exists j :: IsField(fields, key, value, j)
  }

  ghost predicate IsField(fields: seq<Field>, key: string, value: Json, j: nat) {
    j < |fields| && fields[j] == Field(key, value) && forall i :: 0 <= i < j ==> fields[i].key != key
  }

  lemma {:induction false} GetFinds(fields: seq<Field>, key: string) returns (j: nat)
    requires Get(fields, key).Some?
    ensures IsField(fields, key, Get(fields, key).value, j)
  {
    if fields[0].key == key {
      j := 0;
    } else {
      var k := GetFinds(fields[1..], key);
      j := k + 1;
    }
  }

  lemma {:induction false} FoundIsGot(fields: seq<Field>, key: string, value: Json, j: nat)
    requires IsField(fields, key, value, j)
    ensures Get(fields, key) == Some(value)
  {
    if j > 0 {
      assert IsField(fields[1..], key, value, j - 1);
      FoundIsGot(fields[1..], key, value, j - 1);
    }
  }

  /** The object has a name that is a text and not empty. */
  ghost predicate NamedAs(fields: seq<Field>, name: string) {
    name != "" && HasField(fields, "name", Text(name))
  }

  lemma NameFieldIsName(fields: seq<Field>, name: string)
    requires name != ""
    ensures NameField(fields) == name <==> NamedAs(fields, name)
  {
    if NameField(fields) == name {
      var j := GetFinds(fields, "name");
    }
    if NamedAs(fields, name) {
      var j: nat :| IsField(fields, "name", Text(name), j);
      FoundIsGot(fields, "name", Text(name), j);
    }
  }

  ghost predicate ObjectNamed(value: Json, name: string) {
    value.Object? && NamedAs(value.fields, name)
  }

  ghost predicate Nameless(value: Json) {
    forall name :: !ObjectNamed(value, name)
  }

  lemma NameOfIsName(value: Json)
    ensures forall name :: name != "" ==> (NameOf(value) == name <==> ObjectNamed(value, name))
    ensures NameOf(value) == "" <==> Nameless(value)
  {
    if value.Object? {
      forall name | name != "" ensures NameOf(value) == name <==> ObjectNamed(value, name) {
        NameFieldIsName(value.fields, name);
      }
      assert NameOf(value) != "" ==> ObjectNamed(value, NameOf(value));
    }
  }

  /** The name comes from field k, the first whose value is an object with a name. */
  ghost predicate FromField(fields: seq<Field>, name: string, k: nat) {
    && k < |fields| && ObjectNamed(fields[k].value, name)
    && forall i :: 0 <= i < k ==> Nameless(fields[i].value)
  }

  /** The resource is named by the first field that is an object with a name; without one, by the name of
      the whole. */
  ghost predicate ResourceNamed(fields: seq<Field>, name: string) {
    || (exists k :: FromField(fields, name, k))
    || ((forall k :: 0 <= k < |fields| ==> Nameless(fields[k].value)) && NamedAs(fields, name))
  }

  lemma {:induction false} FirstNamedFinds(fields: seq<Field>) returns (k: nat)
    requires FirstNamed(fields) != ""
    ensures FromField(fields, FirstNamed(fields), k)
  {
    NameOfIsName(fields[0].value);
    if NameOf(fields[0].value) != "" {
      k := 0;
    } else {
      var j := FirstNamedFinds(fields[1..]);
      k := j + 1;
      assert ObjectNamed(fields[k].value, FirstNamed(fields));
      forall i | 0 <= i < k ensures Nameless(fields[i].value) {
        if i > 0 { assert Nameless(fields[1..][i - 1].value); }
      }
    }
  }

  lemma {:induction false} FirstFieldNames(fields: seq<Field>, name: string, k: nat)
    requires FromField(fields, name, k)
    ensures FirstNamed(fields) == name
  {
    NameOfIsName(fields[0].value);
    if k > 0 {
      assert Nameless(fields[0].value);
      assert FromField(fields[1..], name, k - 1);
      FirstFieldNames(fields[1..], name, k - 1);
    }
  }

  lemma {:induction false} NamelessFields(fields: seq<Field>)
    requires forall k :: 0 <= k < |fields| ==> Nameless(fields[k].value)
    ensures FirstNamed(fields) == ""
  {
    if fields != [] {
      assert Nameless(fields[0].value);
      NameOfIsName(fields[0].value);
      forall k | 0 <= k < |fields[1..]| ensures Nameless(fields[1..][k].value) {
        assert Nameless(fields[k + 1].value);
      }
      NamelessFields(fields[1..]);
    }
  }

  lemma {:induction false} UnnamedFields(fields: seq<Field>, k: nat)
    requires FirstNamed(fields) == "" && k < |fields|
    ensures Nameless(fields[k].value)
  {
    NameOfIsName(fields[0].value);
    if k > 0 {
      UnnamedFields(fields[1..], k - 1);
    }
  }

  lemma ResourceNameExactly(fields: seq<Field>, name: string)
    requires name != ""
    ensures ResourceNameOf(fields) == name <==> ResourceNamed(fields, name)
  {
    NameFieldIsName(fields, name);
    if FirstNamed(fields) != "" {
      var k := FirstNamedFinds(fields);
      if j: nat :| FromField(fields, name, j) {
        FirstFieldNames(fields, name, j);
      }
      assert !Nameless(fields[k].value);
    } else {
      forall k | 0 <= k < |fields| ensures Nameless(fields[k].value) {
        UnnamedFields(fields, k);
      }
    }
  }

  lemma {:induction false} UpToSlashStops(s: string, rest: string)
    requires NoSlash(s) && (rest == "" || rest[0] == '/')
    ensures UpToSlash(s + rest) == s
  {
    if s == "" {
      assert s + rest == rest;
    } else {
      assert (s + rest)[1..] == s[1..] + rest;
      UpToSlashStops(s[1..], rest);
    }
  }

  /** The meeting a recording belongs to, whatever follows its identifier. */
  lemma RecordOfArtifact(id: string, rest: string)
    requires NoSlash(id) && (rest == "" || rest[0] == '/')
    ensures ConferenceRecordOf(RECORDS + (id + rest)) == RECORDS + id
  {
    assert (RECORDS + (id + rest))[|RECORDS|..] == id + rest;
    UpToSlashStops(id, rest);
  }

  /** record is the prefix of the name that identifies a conference; nothing, for any other resource. */
  ghost predicate RecordedUnder(name: string, record: string) {
    if "conferenceRecords/" <= name
    then exists id, rest :: Splits(name, id, rest) && record == "conferenceRecords/" + id
    else record == ""
  }

  ghost predicate Splits(name: string, id: string, rest: string) {
    name == "conferenceRecords/" + (id + rest) && NoSlash(id) && (rest == "" || rest[0] == '/')
  }

  lemma {:induction false} UpToSlashSplits(s: string) returns (rest: string)
    ensures s == UpToSlash(s) + rest && NoSlash(UpToSlash(s)) && (rest == "" || rest[0] == '/')
  {
    if s == "" || s[0] == '/' {
      rest := s;
    } else {
      rest := UpToSlashSplits(s[1..]);
      assert s == [s[0]] + s[1..];
    }
  }

  lemma RecordExactly(name: string, record: string)
    ensures ConferenceRecordOf(name) == record <==> RecordedUnder(name, record)
  {
    if RECORDS <= name {
      var rest := UpToSlashSplits(name[|RECORDS|..]);
      var id := UpToSlash(name[|RECORDS|..]);
      assert name == RECORDS + name[|RECORDS|..];
      assert Splits(name, id, rest);
      forall other, more | Splits(name, other, more) ensures other == id {
        RecordOfArtifact(other, more);
        assert (RECORDS + other)[|RECORDS|..] == other && (RECORDS + id)[|RECORDS|..] == id;
      }
    }
  }

  ghost predicate Describes(content: Content, e: MeetEvent) {
    && Typed(content.attributes, e.eventType)
    && (exists fields :: GivesObject(content.data, fields) && ResourceNamed(fields, e.resourceName))
    && e.resourceName != ""
    && RecordedUnder(e.resourceName, e.conferenceRecord)
    && e.source == (if "ce-source" in content.attributes then content.attributes["ce-source"] else "")
  }

  lemma TypeExactly(content: Content, eventType: string)
    requires eventType != ""
    ensures content.EventType() == eventType <==> Typed(content.attributes, eventType)
  {
  }

  lemma DecodedExactly(data: Data, fields: seq<Field>)
    ensures Decoded(data) == Object(fields) <==> GivesObject(data, fields)
  {
  }

  /** The event that is read, field by field: a message is read as e if and only if its type, the object its
      text gives, the first name in that object and its source make up e. */
  lemma ReadExactly(content: Content, e: MeetEvent)
    ensures content.Reading() == Readable(e) <==> Describes(content, e)
  {
    if e.eventType != "" && e.resourceName != "" {
      TypeExactly(content, e.eventType);
      RecordExactly(e.resourceName, e.conferenceRecord);
      forall fields ensures GivesObject(content.data, fields) <==> Decoded(content.data) == Object(fields) {
        DecodedExactly(content.data, fields);
      }
      if Decoded(content.data).Object? {
        ResourceNameExactly(Decoded(content.data).fields, e.resourceName);
      }
    }
  }

  /** The form the queue sends: base64 of an object that holds a named recording. */
  lemma RecordingOverRest(id: string, recording: string)
    requires NoSlash(id)
    ensures var name := RECORDS + (id + ("/recordings/" + recording));
            Content(map["ce-type" := RECORDING_FILE_GENERATED],
                    Data(None, Some(Object([Field("recording", Object([Field("name", Text(name))]))])))).Reading()
            == Readable(MeetEvent(RECORDING_FILE_GENERATED, name, RECORDS + id, ""))
  {
    var name := RECORDS + (id + ("/recordings/" + recording));
    RecordOfArtifact(id, "/recordings/" + recording);
    var inner := [Field("name", Text(name))];
    assert Get(inner, "name") == Some(Text(name));
    assert NameOf(Object(inner)) == name;
    var fields := [Field("recording", Object(inner))];
    assert fields[0].value == Object(inner);
    assert FirstNamed(fields) == name;
    assert |RECORDING_FILE_GENERATED| > 0;
  }

  /** The text 1234: a JSON number, and also base64, of bytes that are not JSON. */
  const NUMBER := Data(Some(Other), None)

  /** Sent as a recording event it breaks the reading; sent without a type it is merely unreadable. */
  lemma NumberBreaks()
    ensures Content(map["ce-type" := RECORDING_FILE_GENERATED], NUMBER).Reading() == Breaking
    ensures Content(map[], NUMBER).Reading() == Unreadable
  {
    var typed := Content(map["ce-type" := RECORDING_FILE_GENERATED], NUMBER);
    assert Attribute(typed.attributes, "ce-type") == RECORDING_FILE_GENERATED;
    assert |RECORDING_FILE_GENERATED| > 0;
  }
}
