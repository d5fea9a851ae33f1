/** Which data records a stream yields. Over lines that only carry content
    deltas (and terminators, empty events and events without content), with
    a schema that never raises, `stream()` yields one data record per element
    the buffer completes and the schema accepts, in the order the elements
    complete, and then its terminal record; an element the schema rejects
    yields nothing and does not hold back the ones after it. With the
    hypotheses of `Split`, the elements are those of the concatenated deltas
    fed whole. Like the rest of the pipeline, these lemmas are about the
    corrected buffer. */
module Delivery {
  import opened Json
  import opened Buffer
  import opened Split
  import opened Sse
  import opened LineSource
  import opened Pipeline

  /** The content delta a dict event hands to the buffer, if any. */
  function ContentDelta(event: map<string, Value>): seq<string> {
    match ContentFromEvent(event)
    case Ok(Some(Str(c))) => [c]
    case _ => []
  }

  /** The content delta a line hands to the buffer, if any. */
  function DeltaOf(loads: Loads, line: string): seq<string> {
    var (event, finished) := ParseLine(loads, line);
    if finished || !Truthy(event) || !event.Obj? then [] else ContentDelta(event.fields)
  }

  /** Every content delta of the lines, in order. */
  function Deltas(loads: Loads, lines: seq<string>): seq<string>
    decreases |lines|
  {
    if lines == [] then [] else DeltaOf(loads, lines[0]) + Deltas(loads, lines[1..])
  }

  /** A line the loop passes over without stopping, whatever the schema
      says: the terminator, no event, or a dict event without a usage entry
      whose content, if it has any, is a string. */
  predicate Quiet(loads: Loads, line: string) {
    var (event, finished) := ParseLine(loads, line);
    finished || !Truthy(event) ||
    (event.Obj? && !HasUsage(event) && ContentFromEvent(event.fields).Ok? &&
     (ContentFromEvent(event.fields).value.Some? ==> ContentFromEvent(event.fields).value.value.Str?))
  }

  predicate AllQuiet(loads: Loads, lines: seq<string>) {
    forall i :: 0 <= i < |lines| ==> Quiet(loads, lines[i])
  }

  /** The schema accepts or rejects every candidate and never raises. */
  ghost predicate NeverBroken<T>(schema: Schema<T>) {
    forall v :: !schema(v).Broken?
  }

  /** The terminal record after the lines: the error record when the client
      raised, the final record with the usage otherwise. */
  function Terminal<T>(ctl: Ctl, events: seq<Value>, end: End): Record<T> {
    if end == Raised then ErrorRecord(ctl.raw + events)
    else FinalRecord(UsageOrEmpty(ctl.usage), ctl.raw + events)
  }

  lemma AllQuietTail(loads: Loads, lines: seq<string>)
    requires lines != [] && AllQuiet(loads, lines)
    ensures AllQuiet(loads, lines[1..]) && Quiet(loads, lines[0])
  {
    forall i | 0 <= i < |lines[1..]|
      ensures Quiet(loads, lines[1..][i])
    {
      assert lines[1..][i] == lines[i + 1];
    }
  }

  /** A dict event without usage whose content, if any, is a string: the
      pass carries on, yields a data record per accepted element its delta
      completes and moves the buffer on by that delta. */
  lemma DictData<T>(dec: Decoder, schema: Schema<T>, ctl: Ctl, event: map<string, Value>)
    requires !HasUsage(Obj(event)) && ContentFromEvent(event).Ok? && NeverBroken(schema)
    requires ContentFromEvent(event).value.Some? ==> ContentFromEvent(event).value.value.Str?
    ensures var s := DictStep(dec, schema, ctl, event);
      var f := FeedAll(dec, ctl.buf, ContentDelta(event));
      s.Carry? && s.out == DataRecords(AcceptedObjects(schema, f.values)) && s.ctl == ctl.(buf := f.state)
  {
    assert DataRecords<T>(AcceptedObjects(schema, [])) == [];
    match ContentFromEvent(event)
    case Ok(Some(content)) =>
      var fed := SafeFeed(dec, ctl.buf, content.s);
      assert FeedAll(dec, ctl.buf, [content.s]).values == fed.values + [];
      assert fed.values + [] == fed.values;
      ValidatedAccepted(schema, fed.values);
    case Ok(None) =>
  }

  /** One quiet line carries on, yields a data record per accepted element
      its delta completes, moves the buffer on by that delta, appends its
      event to the raw chunks and leaves the usage alone. */
  lemma StepData<T>(dec: Decoder, loads: Loads, schema: Schema<T>, ctl: Ctl, line: string)
    requires Quiet(loads, line) && NeverBroken(schema)
    ensures var s := StepLine(dec, loads, schema, ctl, line);
      var f := FeedAll(dec, ctl.buf, DeltaOf(loads, line));
      s.Carry? && s.out == DataRecords(AcceptedObjects(schema, f.values)) &&
      s.ctl.buf == f.state && s.ctl.usage == ctl.usage && s.ctl.raw == ctl.raw + EventOf(loads, line)
  {
    var (event, finished) := ParseLine(loads, line);
    if finished || !Truthy(event) {
      assert ctl.raw + [] == ctl.raw;
      assert DataRecords<T>(AcceptedObjects(schema, [])) == [];
    } else {
      DictData(dec, schema, ctl.(raw := ctl.raw + [event]), event.fields);
    }
  }

  /** Data records for two runs of candidates, then a last record. */
  lemma CombineData<T>(schema: Schema<T>, a: seq<Value>, b: seq<Value>, last: Record<T>)
    ensures DataRecords(AcceptedObjects(schema, a)) + (DataRecords(AcceptedObjects(schema, b)) + [last]) ==
      DataRecords(AcceptedObjects(schema, a + b)) + [last]
  {
    AcceptedObjectsAppend(schema, a, b);
    DataRecordsAppend(AcceptedObjects(schema, a), AcceptedObjects(schema, b));
  }

  /** The terminal record does not depend on where the events were cut. */
  lemma TerminalShift<T>(ctl: Ctl, next: Ctl, ev: seq<Value>, later: seq<Value>, end: End)
    requires next.raw == ctl.raw + ev && next.usage == ctl.usage
    ensures Terminal<T>(next, later, end) == Terminal<T>(ctl, ev + later, end)
  {
    assert (ctl.raw + ev) + later == ctl.raw + (ev + later);
  }

  /** Over quiet lines and a schema that never raises, the loop goes through
      every line and yields exactly the data records for the accepted
      elements of the deltas fed one after another, then the terminal
      record. */
  lemma {:induction false} RunData<T>(dec: Decoder, loads: Loads, schema: Schema<T>, ctl: Ctl, lines: seq<string>, end: End)
    requires AllQuiet(loads, lines) && NeverBroken(schema)
    ensures var f := FeedAll(dec, ctl.buf, Deltas(loads, lines));
      Run(dec, loads, schema, ctl, lines, end) ==
        Session(DataRecords(AcceptedObjects(schema, f.values)) + [Terminal(ctl, Events(loads, lines), end)], true)
    decreases |lines|
  {
    if lines == [] {
      assert ctl.raw + [] == ctl.raw;
      assert DataRecords<T>(AcceptedObjects(schema, [])) == [];
      RunEnds(dec, loads, schema, ctl, end);
    } else {
      var rest := lines[1..];
      AllQuietTail(loads, lines);
      StepData(dec, loads, schema, ctl, lines[0]);
      var s := StepLine(dec, loads, schema, ctl, lines[0]);
      RunContinues(dec, loads, schema, ctl, lines, end);
      RunData(dec, loads, schema, s.ctl, rest, end);
      var d0 := DeltaOf(loads, lines[0]);
      var f0 := FeedAll(dec, ctl.buf, d0);
      var g := FeedAll(dec, f0.state, Deltas(loads, rest));
      FeedAllAppend(dec, ctl.buf, d0, Deltas(loads, rest));
      TerminalShift<T>(ctl, s.ctl, EventOf(loads, lines[0]), Events(loads, rest), end);
      CombineData(schema, f0.values, g.values, Terminal<T>(ctl, Events(loads, lines), end));
    }
  }

  /** `read_tokens` with the corrected buffer of `Buffer.SafeFeed`, over a
      transport whose lines are quiet, with a schema that never raises and
      the hypotheses of `Split` on the concatenated deltas: the data records
      are those of the elements of the whole content text, fed at once, that
      the schema accepts, in order; the last record is the terminal one. The
      source's buffer does not meet this: `CommaSplit.AsWrittenLosesComma`
      is an input that meets every hypothesis and loses an element. */
  lemma StreamData<T>(src: Source, loads: Loads, dec: Decoder, schema: Schema<T>)
    requires AllQuiet(loads, Emit(src, 0).lines) && NeverBroken(schema)
    requires Monotone(dec) && Consistent(dec)
    requires var w := FeedSpec(dec, Pending([], false, false), Concat(Deltas(loads, Emit(src, 0).lines)));
      AllDelimited(w.values) && (!w.state.open ==> '[' !in w.state.text)
    ensures var e := Emit(src, 0);
      var w := FeedSpec(dec, Pending([], false, false), Concat(Deltas(loads, e.lines)));
      Run(dec, loads, schema, Start, e.lines, e.end) ==
        Session(DataRecords(AcceptedObjects(schema, w.values)) + [Terminal(Start, Events(loads, e.lines), e.end)], true)
  {
    var e := Emit(src, 0);
    RunData(dec, loads, schema, Start, e.lines, e.end);
    ChunkedMatchesWhole(dec, Deltas(loads, e.lines));
  }
}
