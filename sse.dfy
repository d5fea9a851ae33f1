/** `_SSEEventParser`: turning one server-sent-events line into a decoded
    event, and digging the text delta out of an OpenAI-style event. */
module Sse {
  import opened Json
  import opened Text

  /** `json.loads` on a whole payload: the value, or `None` where Python
      raises `JSONDecodeError`. The JSON grammar is not part of this model. */
  type Loads = string -> Option<Value>

  const DataPrefix: string := "data: "
  const DoneMarker: string := "[DONE]"

  /** The line that ends a stream. */
  const DoneLine: string := DataPrefix + DoneMarker

  /** `parse_line(line)`: the decoded event and whether the line is the
      terminator. Python's `None` and JSON `null` are the same value here, so
      "no event" is `Null`. */
  function ParseLine(loads: Loads, line: string): (r: (Value, bool))
    ensures !StartsWith(line, DataPrefix) ==> r == (Null, false)
    ensures r.1 <==> line == DoneLine
    ensures r.1 ==> r.0 == Null
    ensures r.0 != Null ==> StartsWith(line, DataPrefix) && loads(line[|DataPrefix|..]) == Some(r.0)
  {
    if !StartsWith(line, DataPrefix) then (Null, false)
    else
      var payload := line[|DataPrefix|..];
      PayloadIsDone(line);
      if payload == DoneMarker then (Null, true)
      else match loads(payload)
        case Some(v) => (v, false)
        case None => (Null, false)
  }

  /** A data line carries the terminator exactly when it is the whole line
      `data: [DONE]`. */
  lemma PayloadIsDone(line: string)
    requires StartsWith(line, DataPrefix)
    ensures line[|DataPrefix|..] == DoneMarker <==> line == DoneLine
  {
    assert line == line[..|DataPrefix|] + line[|DataPrefix|..];
  }

  /** `data: <payload>` for any payload but the terminator decodes the
      payload, and a payload that does not decode is no event. */
  lemma {:induction false} ParsesPayload(loads: Loads, payload: string)
    requires payload != DoneMarker
    ensures ParseLine(loads, DataPrefix + payload) ==
      (if loads(payload).Some? then loads(payload).value else Null, false)
  {
    var line := DataPrefix + payload;
    assert line[..|DataPrefix|] == DataPrefix;
    assert line[|DataPrefix|..] == payload;
  }

  /** The shape `content_from_event` needs in order not to raise: `choices`
      empty or missing, or a list whose first entry is a dict whose `delta`
      is empty, missing, or a dict. */
  predicate DeltaShaped(event: map<string, Value>) {
    var choices := Get(event, "choices");
    !Truthy(choices) ||
    (choices.Arr? && choices.items[0].Obj? &&
     var delta := Get(choices.items[0].fields, "delta");
     !Truthy(delta) || delta.Obj?)
  }

  /** The event carries the non-empty content `c` at
      `choices[0].delta.content`. */
  predicate CarriesContent(event: map<string, Value>, c: Value) {
    var choices := Get(event, "choices");
    choices.Arr? && choices.items != [] && choices.items[0].Obj? &&
    var delta := Get(choices.items[0].fields, "delta");
    delta.Obj? && delta.fields != map[] &&
    Get(delta.fields, "content") == c && Truthy(c)
  }

  /** `content_from_event(event)` on a dict event: the content when every
      step of `choices[0].delta.content` is present and non-empty, `None` when
      one of them is empty or missing, and an exception when `choices` or an
      entry on the way is not of the kind the lookup needs. */
  function ContentFromEvent(event: map<string, Value>): (r: Outcome<Option<Value>>)
    ensures r.Raises? <==> !DeltaShaped(event)
    ensures r.Ok? && r.value.Some? ==> CarriesContent(event, r.value.value)
    ensures forall c :: CarriesContent(event, c) ==> r == Ok(Some(c))
  {
    var choices := Get(event, "choices");
    if !Truthy(choices) then Ok(None)
    else if !choices.Arr? then Raises
    else
      var first := choices.items[0];
      if !first.Obj? then Raises
      else
        var delta := Get(first.fields, "delta");
        if !Truthy(delta) then Ok(None)
        else if !delta.Obj? then Raises
        else
          var content := Get(delta.fields, "content");
          if !Truthy(content) then Ok(None) else Ok(Some(content))
  }
}
