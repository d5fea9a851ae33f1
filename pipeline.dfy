/** `_SchemaValidator` and `_PipelineController`: the loop that pulls lines
    from the client, decodes them, feeds content deltas to the token buffer,
    validates every completed element against the schema, and ends the
    stream with one terminal record. */
module Pipeline {
  import opened Json
  import opened Text
  import opened Buffer
  import opened Sse
  import opened LineSource

  /** What `schema.model_validate(candidate)` does: return the validated
      object, raise `ValidationError`, or raise anything else. */
  datatype Verdict<+T> = Accepted(obj: T) | Rejected | Broken

  type Schema<!T> = Value -> Verdict<T>

  /** `_SchemaValidator.validate(candidate)`: the validated object, `None`
      for a candidate the schema rejects, and the exception passed on for
      any other failure. */
  function Validate<T>(schema: Schema<T>, candidate: Value): (r: Outcome<Option<T>>)
    ensures r == Ok(None) <==> schema(candidate).Rejected?
    ensures r.Raises? <==> schema(candidate).Broken?
    ensures r.Ok? && r.value.Some? ==> schema(candidate) == Accepted(r.value.value)
  {
    match schema(candidate)
    case Accepted(obj) => Ok(Some(obj))
    case Rejected => Ok(None)
    case Broken => Raises
  }

  /** One record the stream yields: the dict with keys `data`, `usage`,
      `raw_chunks` (only on the terminal record), `finished` and `error`
      (only on the error record). The error text is not modelled. */
  datatype Record<T> = Record(data: Option<T>, usage: Value, rawChunks: Option<seq<Value>>, finished: bool, error: bool)
  {
    /** A record yielded for a validated element. */
    predicate IsData() {
      data.Some? && usage == EmptyObj && rawChunks.None? && !finished && !error
    }
  }

  function DataRecord<T>(obj: T): Record<T> {
    Record(Some(obj), EmptyObj, None, false, false)
  }

  function FinalRecord<T>(usage: Value, raw: seq<Value>): Record<T> {
    Record(None, usage, Some(raw), true, false)
  }

  function ErrorRecord<T>(raw: seq<Value>): Record<T> {
    Record(None, EmptyObj, Some(raw), true, true)
  }

  /** `self._usage_data if self._usage_data else {}`. */
  function UsageOrEmpty(usage: Value): Value {
    if Truthy(usage) then usage else EmptyObj
  }

  /** The loop `for candidate in ...: validated = validate(candidate)` over
      the elements one delta completed: a data record for each accepted
      element, in order, until a validation raises. */
  function Validated<T>(schema: Schema<T>, candidates: seq<Value>): (r: (seq<Record<T>>, bool))
    ensures |r.0| <= |candidates|
    ensures forall i :: 0 <= i < |r.0| ==> r.0[i].IsData()
  {
    if candidates == [] then ([], false)
    else match Validate(schema, candidates[0])
      case Raises => ([], true)
      case Ok(None) => Validated(schema, candidates[1..])
      case Ok(Some(obj)) =>
        var rest := Validated(schema, candidates[1..]);
        ([DataRecord(obj)] + rest.0, rest.1)
  }

  /** The objects the schema accepts among `candidates`, in order: the
      reference for what the validation loop yields. */
  function AcceptedObjects<T>(schema: Schema<T>, candidates: seq<Value>): seq<T>
    decreases |candidates|
  {
    if candidates == [] then []
    else
      var rest := AcceptedObjects(schema, candidates[1..]);
      match schema(candidates[0])
      case Accepted(obj) => [obj] + rest
      case _ => rest
  }

  lemma {:induction false} AcceptedObjectsAppend<T>(schema: Schema<T>, a: seq<Value>, b: seq<Value>)
    ensures AcceptedObjects(schema, a + b) == AcceptedObjects(schema, a) + AcceptedObjects(schema, b)
    decreases |a|
  {
    if a == [] {
      assert a + b == b;
    } else {
      assert (a + b)[0] == a[0] && (a + b)[1..] == a[1..] + b;
      AcceptedObjectsAppend(schema, a[1..], b);
    }
  }

  /** One data record per object, in order. */
  function DataRecords<T>(objs: seq<T>): (rs: seq<Record<T>>)
    ensures |rs| == |objs|
    ensures forall i :: 0 <= i < |objs| ==> rs[i] == DataRecord(objs[i])
  {
    seq(|objs|, i requires 0 <= i < |objs| => DataRecord(objs[i]))
  }

  /** No candidate makes the schema raise anything but `ValidationError`. */
  predicate NoneBroken<T>(schema: Schema<T>, candidates: seq<Value>) {
    forall i :: 0 <= i < |candidates| ==> !schema(candidates[i]).Broken?
  }

  lemma DataRecordsAppend<T>(a: seq<T>, b: seq<T>)
    ensures DataRecords(a + b) == DataRecords(a) + DataRecords(b)
  {
  }

  lemma NoneBrokenTail<T>(schema: Schema<T>, candidates: seq<Value>)
    requires candidates != [] && NoneBroken(schema, candidates)
    ensures NoneBroken(schema, candidates[1..]) && !schema(candidates[0]).Broken?
  {
    forall i | 0 <= i < |candidates[1..]|
      ensures !schema(candidates[1..][i]).Broken?
    {
      assert candidates[1..][i] == candidates[i + 1];
    }
  }

  /** When no validation raises, the loop yields one data record per
      accepted element, in the elements' order; a rejected element yields
      nothing and does not stop the loop. */
  lemma {:induction false} ValidatedAccepted<T>(schema: Schema<T>, candidates: seq<Value>)
    requires NoneBroken(schema, candidates)
    ensures Validated(schema, candidates) == (DataRecords(AcceptedObjects(schema, candidates)), false)
    decreases |candidates|
  {
    if candidates != [] {
      NoneBrokenTail(schema, candidates);
      ValidatedAccepted(schema, candidates[1..]);
      match schema(candidates[0])
      case Accepted(obj) =>
        assert DataRecords([obj]) == [DataRecord(obj)];
        DataRecordsAppend([obj], AcceptedObjects(schema, candidates[1..]));
      case Rejected =>
    }
  }

  /** A validation that raises stops the loop: the records are those of the
      elements accepted before it. */
  lemma {:induction false} ValidatedStopsAtBroken<T>(schema: Schema<T>, candidates: seq<Value>, k: nat)
    requires k < |candidates| && schema(candidates[k]).Broken? && NoneBroken(schema, candidates[..k])
    ensures Validated(schema, candidates) == (DataRecords(AcceptedObjects(schema, candidates[..k])), true)
    decreases k
  {
    if k == 0 {
      assert candidates[..k] == [];
    } else {
      assert candidates[..k][0] == candidates[0];
      assert candidates[..k][1..] == candidates[1..][..k - 1];
      NoneBrokenTail(schema, candidates[..k]);
      ValidatedStopsAtBroken(schema, candidates[1..], k - 1);
      match schema(candidates[0])
      case Accepted(obj) =>
        assert DataRecords([obj]) == [DataRecord(obj)];
        DataRecordsAppend([obj], AcceptedObjects(schema, candidates[1..][..k - 1]));
      case Rejected =>
    }
  }

  /** Validating `a` and then `b` is validating `a + b`, when nothing in `a`
      raises. */
  lemma {:induction false} ValidatedAppend<T>(schema: Schema<T>, a: seq<Value>, b: seq<Value>)
    requires NoneBroken(schema, a)
    ensures Validated(schema, a + b) == (Validated(schema, a).0 + Validated(schema, b).0, Validated(schema, b).1)
    decreases |a|
  {
    if a == [] {
      assert a + b == b && [] + Validated(schema, b).0 == Validated(schema, b).0;
    } else {
      assert (a + b)[0] == a[0];
      assert (a + b)[1..] == a[1..] + b;
      NoneBrokenTail(schema, a);
      ValidatedAppend(schema, a[1..], b);
      match schema(a[0])
      case Accepted(obj) =>
        assert [DataRecord(obj)] + (Validated(schema, a[1..]).0 + Validated(schema, b).0) ==
          ([DataRecord(obj)] + Validated(schema, a[1..]).0) + Validated(schema, b).0;
      case Rejected =>
    }
  }

  /** What the controller keeps between lines: the `stream_finished` flag,
      `_usage_data`, `_raw_chunks`, and the token buffer. */
  datatype Ctl = Ctl(streamFinished: bool, usage: Value, raw: seq<Value>, buf: SafePending)

  /** The controller as `__init__` leaves it, at the start of `stream()`. */
  const Start: Ctl := Ctl(false, EmptyObj, [], SafePending([], false, false, false))

  /** After one line: carry on with new state, stop after the terminal
      record, or fail with the raw chunks the error record reports. */
  datatype Step<T> = Carry(ctl: Ctl, out: seq<Record<T>>) | Halt(out: seq<Record<T>>) | Fail(out: seq<Record<T>>, raw: seq<Value>)

  /** One pass of the body of `stream()`'s loop over the line `line`. A
      truthy event that is not a dict raises at the `usage` test or in
      `content_from_event`; content that is not a string raises when the
      buffer appends it. */
  function StepLine<T>(dec: Decoder, loads: Loads, schema: Schema<T>, ctl: Ctl, line: string): Step<T> {
    var (event, finished) := ParseLine(loads, line);
    if finished then Carry(ctl.(streamFinished := true), [])
    else if !Truthy(event) then Carry(ctl, [])
    else
      var raw := ctl.raw + [event];
      if !event.Obj? then Fail([], raw)
      else DictStep(dec, schema, ctl.(raw := raw), event.fields)
  }

  /** The rest of the loop body for an event that is a dict, once it is
      appended to the raw chunks: a `usage` entry after `[DONE]` ends the
      stream; otherwise its content delta, if any, is fed to the buffer and
      each completed element validated. */
  function DictStep<T>(dec: Decoder, schema: Schema<T>, ctl: Ctl, event: map<string, Value>): Step<T> {
    var hit := "usage" in event && Truthy(event["usage"]);
    var usage := if hit then event["usage"] else ctl.usage;
    if hit && ctl.streamFinished then Halt([FinalRecord(usage, ctl.raw)])
    else match ContentFromEvent(event)
      case Raises => Fail([], ctl.raw)
      case Ok(None) => Carry(ctl.(usage := usage), [])
      case Ok(Some(content)) =>
        if !content.Str? then Fail([], ctl.raw)
        else
          var fed := SafeFeed(dec, ctl.buf, content.s);
          var (out, broke) := Validated(schema, fed.values);
          if broke then Fail(out, ctl.raw)
          else Carry(ctl.(usage := usage, buf := fed.state), out)
  }

  /** The records of a whole stream, and whether the loop went through every
      line (rather than stopping at a usage event after `[DONE]` or at an
      exception). */
  datatype Session<T> = Session(records: seq<Record<T>>, drained: bool)

  /** `stream()` over the lines `lines` of a client whose iteration ends as
      `end` says. */
  function Run<T>(dec: Decoder, loads: Loads, schema: Schema<T>, ctl: Ctl, lines: seq<string>, end: End): Session<T>
    decreases |lines|
  {
    if lines == [] then
      if end == Raised then Session([ErrorRecord(ctl.raw)], true)
      else Session([FinalRecord(UsageOrEmpty(ctl.usage), ctl.raw)], true)
    else match StepLine(dec, loads, schema, ctl, lines[0])
      case Carry(next, out) =>
        var rest := Run(dec, loads, schema, next, lines[1..], end);
        Session(out + rest.records, rest.drained)
      case Halt(out) => Session(out, false)
      case Fail(out, raw) => Session(out + [ErrorRecord(raw)], false)
  }

  /** `Run` over a line that lets the loop carry on. */
  lemma RunContinues<T>(dec: Decoder, loads: Loads, schema: Schema<T>, ctl: Ctl, lines: seq<string>, end: End)
    requires lines != [] && StepLine(dec, loads, schema, ctl, lines[0]).Carry?
    ensures var s := StepLine(dec, loads, schema, ctl, lines[0]);
      var rest := Run(dec, loads, schema, s.ctl, lines[1..], end);
      Run(dec, loads, schema, ctl, lines, end) == Session(s.out + rest.records, rest.drained)
  {
  }

  /** `Run` over a line that ends the loop. */
  lemma RunStops<T>(dec: Decoder, loads: Loads, schema: Schema<T>, ctl: Ctl, lines: seq<string>, end: End)
    requires lines != [] && !StepLine(dec, loads, schema, ctl, lines[0]).Carry?
    ensures var s := StepLine(dec, loads, schema, ctl, lines[0]);
      Run(dec, loads, schema, ctl, lines, end) ==
        if s.Halt? then Session(s.out, false) else Session(s.out + [ErrorRecord(s.raw)], false)
  {
  }

  /** `Run` once the lines run out. */
  lemma RunEnds<T>(dec: Decoder, loads: Loads, schema: Schema<T>, ctl: Ctl, end: End)
    ensures Run(dec, loads, schema, ctl, [], end) ==
      if end == Raised then Session([ErrorRecord(ctl.raw)], true)
      else Session([FinalRecord(UsageOrEmpty(ctl.usage), ctl.raw)], true)
  {
  }

  /** How one pass of the loop body ended. */
  datatype Status = Going | Stopped | Faulted

  /** The step a pass of the loop body took, from how it ended. */
  function StepOf<T>(status: Status, out: seq<Record<T>>, ctl: Ctl): Step<T> {
    match status
    case Going => Carry(ctl, out)
    case Stopped => Halt(out)
    case Faulted => Fail(out, ctl.raw)
  }

  /** The validation loop over one delta's elements. */
  method ValidateAll<T>(schema: Schema<T>, candidates: seq<Value>) returns (out: seq<Record<T>>, broke: bool)
    ensures (out, broke) == Validated(schema, candidates)
  {
    out, broke := [], false;
    var i := 0;
    assert candidates[0..] == candidates;
    while i < |candidates|
      invariant 0 <= i <= |candidates|
      invariant Validated(schema, candidates).0 == out + Validated(schema, candidates[i..]).0
      invariant Validated(schema, candidates).1 == Validated(schema, candidates[i..]).1
    {
      ValidatedStep(schema, candidates, i);
      match Validate(schema, candidates[i]) {
        case Raises =>
          assert out + [] == out;
          return out, true;
        case Ok(None) =>
        case Ok(Some(obj)) =>
          AppendOne(out, DataRecord(obj), Validated(schema, candidates[i + 1..]).0);
          out := out + [DataRecord(obj)];
      }
      i := i + 1;
    }
    assert candidates[i..] == [] && out + [] == out;
  }

  /** `Validated` over the elements from `i` on, one element at a time. */
  lemma ValidatedStep<T>(schema: Schema<T>, candidates: seq<Value>, i: nat)
    requires i < |candidates|
    ensures var now := Validated(schema, candidates[i..]);
      var later := Validated(schema, candidates[i + 1..]);
      match Validate(schema, candidates[i])
      case Raises => now == ([], true)
      case Ok(None) => now == later
      case Ok(Some(obj)) => now == ([DataRecord(obj)] + later.0, later.1)
  {
    assert candidates[i..][0] == candidates[i];
    assert candidates[i..][1..] == candidates[i + 1..];
  }

  /** Adding one record in front of the rest. */
  lemma AppendOne<R>(out: seq<R>, r: R, later: seq<R>)
    ensures (out + [r]) + later == out + ([r] + later) && out + [] == out
  {
  }

  class Controller<T> {
    const client: StreamClient
    const buffer: SafeTokenBuffer
    const loads: Loads
    const schema: Schema<T>
    var usageData: Value
    var rawChunks: seq<Value>

    constructor (client: StreamClient, buffer: SafeTokenBuffer, loads: Loads, schema: Schema<T>)
      ensures this.client == client && this.buffer == buffer
      ensures this.loads == loads && this.schema == schema
      ensures usageData == EmptyObj && rawChunks == []
    {
      this.client, this.buffer, this.loads, this.schema := client, buffer, loads, schema;
      usageData, rawChunks := EmptyObj, [];
    }

    /** The state `stream()` works on, with its local `stream_finished`. */
    function State(finished: bool): Ctl
      reads this, buffer
    {
      Ctl(finished, usageData, rawChunks, buffer.State())
    }

    /** One pass of the loop body of `stream()` over `line`. */
    method Consume(line: string, finished: bool) returns (out: seq<Record<T>>, status: Status, finishedNow: bool)
      requires buffer.Valid()
      modifies this, buffer
      ensures buffer.Valid()
      ensures StepOf(status, out, State(finishedNow)) ==
        StepLine(buffer.decoder, loads, schema, old(State(finished)), line)
    {
      out, status, finishedNow := [], Going, finished;
      var (event, done) := ParseLine(loads, line);
      if done {
        finishedNow := true;
        return;
      }
      if !Truthy(event) {
        return;
      }
      rawChunks := rawChunks + [event];
      if !event.Obj? {
        status := Faulted;
        return;
      }
      out, status := HandleDict(event.fields, finished);
    }

    /** The loop body for a dict event already appended to the raw chunks. */
    method HandleDict(event: map<string, Value>, finished: bool) returns (out: seq<Record<T>>, status: Status)
      requires buffer.Valid()
      modifies this, buffer
      ensures buffer.Valid()
      ensures StepOf(status, out, State(finished)) == DictStep(buffer.decoder, schema, old(State(finished)), event)
    {
      out, status := [], Going;
      if "usage" in event && Truthy(event["usage"]) {
        usageData := event["usage"];
        if finished {
          out, status := [FinalRecord(usageData, rawChunks)], Stopped;
          return;
        }
      }
      var content := ContentFromEvent(event);
      if content.Raises? {
        status := Faulted;
        return;
      }
      if content.value.None? {
        return;
      }
      if !content.value.value.Str? {
        status := Faulted;
        return;
      }
      var broke;
      out, broke := FeedContent(content.value.value.s);
      if broke {
        status := Faulted;
      }
    }

    /** `self._token_buffer.feed(content)` and the validation of what it
        returns. */
    method FeedContent(content: string) returns (out: seq<Record<T>>, broke: bool)
      requires buffer.Valid()
      modifies buffer
      ensures buffer.Valid()
      ensures var fed := SafeFeed(buffer.decoder, old(buffer.State()), content);
        buffer.State() == fed.state && (out, broke) == Validated(schema, fed.values)
    {
      var candidates := buffer.Feed(content);
      out, broke := ValidateAll(schema, candidates);
    }

    /** `stream()`: the records of the whole stream, in order. The client
        is closed on every way out; when the loop stops early the generator
        is dropped, which closes the response from its `finally`. */
    method Stream() returns (records: seq<Record<T>>)
      requires client.Valid() && !client.done && buffer.Valid()
      modifies this, client, buffer
      ensures client.Valid() && client.done
      ensures var s := Run(buffer.decoder, loads, schema, old(State(false)), old(client.Rest()).lines, old(client.Rest()).end);
        records == s.records &&
        client.closes == old(client.closes) + (if s.drained && old(client.Rest()).end == Cancelled then 2 else 1)
    {
      var finished := false;
      records := [];
      ghost var end := client.Rest().end;
      ghost var lines := client.Rest().lines;
      ghost var whole := Run(buffer.decoder, loads, schema, State(false), lines, end);
      while true
        invariant client.Valid() && !client.done && buffer.Valid()
        invariant client.closes == old(client.closes) && client.Rest() == Emission(lines, end)
        invariant whole == After(records, Run(buffer.decoder, loads, schema, State(finished), lines, end))
        decreases |lines|
      {
        ghost var now := Run(buffer.decoder, loads, schema, State(finished), lines, end);
        var more, out, finishedNow := Pump(lines, end, finished);
        if !more {
          AfterStop(whole, records, now);
          records := records + out;
          return;
        }
        AfterStep(whole, records, out, Run(buffer.decoder, loads, schema, State(finishedNow), lines[1..], end));
        records, lines, finished := records + out, lines[1..], finishedNow;
      }
    }

    /** One turn of `stream()`'s loop: pull a line and handle it, or end the
        stream when the client has no more. `more` says the loop goes on. */
    method Pump(ghost lines: seq<string>, ghost end: End, finished: bool) returns (more: bool, out: seq<Record<T>>, finishedNow: bool)
      requires client.Valid() && !client.done && buffer.Valid()
      requires client.Rest() == Emission(lines, end)
      modifies this, client, buffer
      ensures client.Valid() && buffer.Valid()
      ensures more ==>
        lines != [] && !client.done && client.closes == old(client.closes) &&
        client.Rest() == Emission(lines[1..], end) &&
        Run(buffer.decoder, loads, schema, old(State(finished)), lines, end) ==
          After(out, Run(buffer.decoder, loads, schema, State(finishedNow), lines[1..], end))
      ensures !more ==>
        var s := Run(buffer.decoder, loads, schema, old(State(finished)), lines, end);
        client.done && out == s.records &&
        client.closes == old(client.closes) + (if s.drained && end == Cancelled then 2 else 1)
    {
      ghost var before := State(finished);
      var p := client.NextLine();
      if !p.Got? {
        RunEnds(buffer.decoder, loads, schema, before, end);
        if p.Failed? {
          out := [ErrorRecord(rawChunks)];
        } else {
          out := [FinalRecord(UsageOrEmpty(usageData), rawChunks)];
        }
        return false, out, finished;
      }
      more, out, finishedNow := HandleLine(lines, end, p.line, finished);
    }

    /** The loop body over a line the client has just yielded; when the loop
        stops, the generator, suspended at that line, is closed. */
    method HandleLine(ghost lines: seq<string>, ghost end: End, line: string, finished: bool) returns (more: bool, out: seq<Record<T>>, finishedNow: bool)
      requires client.Valid() && !client.done && client.yielded != [] && buffer.Valid()
      requires lines != [] && lines[0] == line && client.Rest() == Emission(lines[1..], end)
      modifies this, client, buffer
      ensures client.Valid() && buffer.Valid()
      ensures more ==>
        !client.done && client.closes == old(client.closes) &&
        client.Rest() == Emission(lines[1..], end) &&
        Run(buffer.decoder, loads, schema, old(State(finished)), lines, end) ==
          After(out, Run(buffer.decoder, loads, schema, State(finishedNow), lines[1..], end))
      ensures !more ==>
        client.done && client.closes == old(client.closes) + 1 &&
        Run(buffer.decoder, loads, schema, old(State(finished)), lines, end) == Session(out, false)
    {
      more, out, finishedNow := Handle(lines, end, line, finished);
      if !more {
        client.Dispose();
      }
    }

    /** The loop body over the line `line`, the first of `lines`, and the
        session it leaves to come. */
    method Handle(ghost lines: seq<string>, ghost end: End, line: string, finished: bool) returns (more: bool, out: seq<Record<T>>, finishedNow: bool)
      requires buffer.Valid() && lines != [] && lines[0] == line
      modifies this, buffer
      ensures buffer.Valid()
      ensures more ==>
        Run(buffer.decoder, loads, schema, old(State(finished)), lines, end) ==
          After(out, Run(buffer.decoder, loads, schema, State(finishedNow), lines[1..], end))
      ensures !more ==>
        Run(buffer.decoder, loads, schema, old(State(finished)), lines, end) == Session(out, false)
    {
      ghost var before := State(finished);
      var status;
      out, status, finishedNow := Consume(line, finished);
      if status != Going {
        RunStops(buffer.decoder, loads, schema, before, lines, end);
        if status == Faulted {
          out := out + [ErrorRecord(rawChunks)];
        }
        return false, out, finishedNow;
      }
      RunContinues(buffer.decoder, loads, schema, before, lines, end);
      more := true;
    }
  }

  /** The records already yielded followed by the session still to come. */
  function After<T>(records: seq<Record<T>>, rest: Session<T>): Session<T> {
    Session(records + rest.records, rest.drained)
  }

  lemma AfterStep<T>(whole: Session<T>, records: seq<Record<T>>, out: seq<Record<T>>, rest: Session<T>)
    requires whole == After(records, Session(out + rest.records, rest.drained))
    ensures whole == After(records + out, rest)
  {
  }

  lemma AfterStop<T>(whole: Session<T>, records: seq<Record<T>>, rest: Session<T>)
    requires whole == After(records, rest)
    ensures whole.records == records + rest.records && whole.drained == rest.drained
  {
  }

  /** `read_tokens(...)`: a client over the transport, a fresh buffer and
      controller, and the records of `stream()`. */
  method ReadTokens<T>(src: Source, loads: Loads, dec: Decoder, schema: Schema<T>) returns (records: seq<Record<T>>)
    ensures records == Run(dec, loads, schema, Start, Emit(src, 0).lines, Emit(src, 0).end).records
  {
    var client := new StreamClient(src);
    var buffer := new SafeTokenBuffer(dec);
    var controller := new Controller(client, buffer, loads, schema);
    records := controller.Stream();
  }

  /** A stream cancelled before its first item still ends with one terminal
      record: no data, usage `{}`, no raw chunks. */
  lemma CancelledBeforeFirstLine<T>(src: Source, loads: Loads, dec: Decoder, schema: Schema<T>)
    requires 0 < src.Count() && !src.FailsAt(0) && src.CancelledAt(0)
    ensures Emit(src, 0) == Emission([], Cancelled)
    ensures Run(dec, loads, schema, Start, Emit(src, 0).lines, Emit(src, 0).end) ==
      Session([FinalRecord(EmptyObj, [])], true)
  {
    EmitCancelled(src, 0);
    RunEnds(dec, loads, schema, Start, Cancelled);
  }

  /** A transport that fails on its first fetch yields no lines, and
      `stream()` yields only the error record, with no raw chunks. */
  lemma FailedBeforeFirstLine<T>(src: Source, loads: Loads, dec: Decoder, schema: Schema<T>)
    requires src.FailsAt(0)
    ensures Emit(src, 0) == Emission([], Raised)
    ensures Run(dec, loads, schema, Start, Emit(src, 0).lines, Emit(src, 0).end) ==
      Session([ErrorRecord([])], true)
  {
    EmitFailed(src, 0);
    RunEnds(dec, loads, schema, Start, Raised);
  }

  /** The event a line appends to `_raw_chunks`: its decoded event, when
      the line is not the terminator and the event is truthy. */
  function EventOf(loads: Loads, line: string): seq<Value> {
    var (event, finished) := ParseLine(loads, line);
    if !finished && Truthy(event) then [event] else []
  }

  /** Every event the lines append to `_raw_chunks`, in order. */
  function Events(loads: Loads, lines: seq<string>): seq<Value>
    decreases |lines|
  {
    if lines == [] then [] else EventOf(loads, lines[0]) + Events(loads, lines[1..])
  }

  /** `_usage_data` after an event: its `usage` entry when that is present
      and non-empty, otherwise unchanged. */
  function UsageAfter(usage: Value, event: Value): Value {
    if event.Obj? && "usage" in event.fields && Truthy(event.fields["usage"]) then event.fields["usage"] else usage
  }

  /** The usage left by a run of events: the last non-empty one. */
  function LastUsage(usage: Value, events: seq<Value>): Value
    decreases |events|
  {
    if events == [] then usage else LastUsage(UsageAfter(usage, events[0]), events[1..])
  }

  lemma {:induction false} LastUsageAppend(usage: Value, a: seq<Value>, b: seq<Value>)
    ensures LastUsage(usage, a + b) == LastUsage(LastUsage(usage, a), b)
    decreases |a|
  {
    if a == [] {
      assert a + b == b;
    } else {
      assert (a + b)[1..] == a[1..] + b;
      LastUsageAppend(UsageAfter(usage, a[0]), a[1..], b);
    }
  }

  /** What a pass of the loop body that looks at a dict event does: a pass
      that carries on sets the usage from the event and yields data records
      only; a pass that halts yields the terminal record for the event's
      non-empty usage. */
  lemma DictEffect<T>(dec: Decoder, schema: Schema<T>, ctl: Ctl, event: map<string, Value>)
    ensures var s := DictStep(dec, schema, ctl, event);
      (s.Carry? ==> s.ctl.raw == ctl.raw && s.ctl.usage == UsageAfter(ctl.usage, Obj(event))) &&
      (s.Halt? ==>
         s.out == [FinalRecord(UsageAfter(ctl.usage, Obj(event)), ctl.raw)] &&
         Truthy(UsageAfter(ctl.usage, Obj(event)))) &&
      (s.Fail? ==> s.raw == ctl.raw) &&
      (!s.Halt? ==> forall i :: 0 <= i < |s.out| ==> s.out[i].IsData())
  {
  }

  /** What one pass of the loop body does to the raw chunks, the usage and
      the records: a pass that carries on appends the line's event and
      updates the usage from it, a pass that halts yields the terminal record
      for the new chunks and usage, and a pass that fails reports the new
      chunks. Only data records come before. */
  lemma StepEffect<T>(dec: Decoder, loads: Loads, schema: Schema<T>, ctl: Ctl, line: string)
    ensures var s := StepLine(dec, loads, schema, ctl, line);
      var ev := EventOf(loads, line);
      (s.Carry? ==> s.ctl.raw == ctl.raw + ev && s.ctl.usage == LastUsage(ctl.usage, ev)) &&
      (s.Halt? ==>
         ev != [] && s.out == [FinalRecord(LastUsage(ctl.usage, ev), ctl.raw + ev)] &&
         Truthy(LastUsage(ctl.usage, ev))) &&
      (s.Fail? ==> s.raw == ctl.raw + ev) &&
      (!s.Halt? ==> forall i :: 0 <= i < |s.out| ==> s.out[i].IsData())
  {
    var (event, finished) := ParseLine(loads, line);
    if !finished && Truthy(event) {
      assert LastUsage(ctl.usage, [event]) == UsageAfter(ctl.usage, event);
      if event.Obj? {
        DictEffect(dec, schema, ctl.(raw := ctl.raw + [event]), event.fields);
      }
    } else {
      assert ctl.raw + [] == ctl.raw;
    }
  }

  /** Only data records, then one finished record without data. */
  predicate DataThenTerminal<T>(rs: seq<Record<T>>) {
    rs != [] && (forall i :: 0 <= i < |rs| - 1 ==> rs[i].IsData()) &&
    rs[|rs| - 1].finished && rs[|rs| - 1].data.None? && rs[|rs| - 1].rawChunks.Some?
  }

  /** The terminal record `last` reports the raw chunks: the chunks `raw`
      held before followed by a prefix of `events`, all of them when the
      loop went through every line. Unless it is the error record it
      carries the last non-empty usage among them, or `{}`. */
  predicate Reports<T>(raw: seq<Value>, usage: Value, last: Record<T>, events: seq<Value>, drained: bool)
    requires last.rawChunks.Some?
  {
    var chunks := last.rawChunks.value;
    raw <= chunks <= raw + events &&
    (drained ==> chunks == raw + events) &&
    (last.error ==> last.usage == EmptyObj) &&
    (!last.error ==> last.usage == UsageOrEmpty(LastUsage(usage, chunks[|raw|..])))
  }

  /** The records of a session end in exactly one terminal record, which
      reports the chunks and usage the loop saw. */
  predicate EndsWell<T>(raw: seq<Value>, usage: Value, s: Session<T>, events: seq<Value>) {
    DataThenTerminal(s.records) &&
    Reports(raw, usage, s.records[|s.records| - 1], events, s.drained)
  }

  /** Every run of the loop ends well: see `EndsWell`. */
  lemma {:induction false} RunShape<T>(dec: Decoder, loads: Loads, schema: Schema<T>, ctl: Ctl, lines: seq<string>, end: End)
    ensures EndsWell(ctl.raw, ctl.usage, Run(dec, loads, schema, ctl, lines, end), Events(loads, lines))
    decreases |lines|
  {
    if lines == [] {
      assert ctl.raw + [] == ctl.raw;
      assert ctl.raw[|ctl.raw|..] == [];
    } else {
      var ev := EventOf(loads, lines[0]);
      StepEffect(dec, loads, schema, ctl, lines[0]);
      assert Events(loads, lines) == ev + Events(loads, lines[1..]);
      match StepLine(dec, loads, schema, ctl, lines[0])
      case Carry(next, out) =>
        RunShape(dec, loads, schema, next, lines[1..], end);
        CarryShape(ctl, next, out, Run(dec, loads, schema, next, lines[1..], end), ev, Events(loads, lines[1..]));
      case Halt(out) =>
        HaltShape(ctl.raw, ctl.usage, ev, Events(loads, lines[1..]));
      case Fail(out, raw) =>
        assert ctl.raw + ev <= ctl.raw + (ev + Events(loads, lines[1..]));
    }
  }

  lemma HaltShape(raw: seq<Value>, usage: Value, ev: seq<Value>, later: seq<Value>)
    ensures raw <= raw + ev <= raw + (ev + later)
    ensures (raw + ev)[|raw|..] == ev
  {
  }

  /** `EndsWell` carried back over one pass of the loop that goes on. */
  lemma CarryShape<T>(ctl: Ctl, next: Ctl, out: seq<Record<T>>, rest: Session<T>, ev: seq<Value>, later: seq<Value>)
    requires next.raw == ctl.raw + ev && next.usage == LastUsage(ctl.usage, ev)
    requires forall i :: 0 <= i < |out| ==> out[i].IsData()
    requires EndsWell(next.raw, next.usage, rest, later)
    ensures EndsWell(ctl.raw, ctl.usage, Session(out + rest.records, rest.drained), ev + later)
  {
    var last := rest.records[|rest.records| - 1];
    CarryRecords(out, rest.records);
    CarryReports(ctl.raw, ev, later, last.rawChunks.value, rest.drained);
    LastUsageAppend(ctl.usage, ev, last.rawChunks.value[|next.raw|..]);
  }

  lemma CarryRecords<T>(out: seq<Record<T>>, rs: seq<Record<T>>)
    requires forall i :: 0 <= i < |out| ==> out[i].IsData()
    requires DataThenTerminal(rs)
    ensures DataThenTerminal(out + rs) && (out + rs)[|out + rs| - 1] == rs[|rs| - 1]
  {
    var all := out + rs;
    forall i | 0 <= i < |all| - 1
      ensures all[i].IsData()
    {
      if i >= |out| {
        assert all[i] == rs[i - |out|];
      }
    }
  }

  lemma CarryReports(raw: seq<Value>, ev: seq<Value>, later: seq<Value>, chunks: seq<Value>, drained: bool)
    requires raw + ev <= chunks <= (raw + ev) + later
    requires drained ==> chunks == (raw + ev) + later
    ensures raw <= chunks <= raw + (ev + later)
    ensures drained ==> chunks == raw + (ev + later)
    ensures chunks[|raw|..] == ev + chunks[|raw + ev|..]
  {
    assert (raw + ev) + later == raw + (ev + later);
  }

  /** The event carries a non-empty `usage` entry. */
  predicate HasUsage(event: Value) {
    event.Obj? && "usage" in event.fields && Truthy(event.fields["usage"])
  }

  /** Once `[DONE]` has been seen, a line whose event carries a non-empty
      `usage` ends the stream at once: the terminal record carries that usage
      and the chunks up to it, and no later line is read. */
  lemma UsageAfterDoneEnds<T>(dec: Decoder, loads: Loads, schema: Schema<T>, ctl: Ctl, lines: seq<string>, end: End)
    requires ctl.streamFinished && lines != [] && HasUsage(ParseLine(loads, lines[0]).0)
    ensures var e := ParseLine(loads, lines[0]).0;
      Run(dec, loads, schema, ctl, lines, end) == Session([FinalRecord(e.fields["usage"], ctl.raw + [e])], false)
  {
  }

  /** `[DONE]` followed by a usage-bearing line: whatever the state and
      whatever follows, the stream ends with that usage. */
  lemma DoneThenUsage<T>(dec: Decoder, loads: Loads, schema: Schema<T>, ctl: Ctl, lines: seq<string>, end: End)
    requires |lines| >= 2 && lines[0] == DoneLine && HasUsage(ParseLine(loads, lines[1]).0)
    ensures var e := ParseLine(loads, lines[1]).0;
      Run(dec, loads, schema, ctl, lines, end) == Session([FinalRecord(e.fields["usage"], ctl.raw + [e])], false)
  {
    var armed := ctl.(streamFinished := true);
    assert StepLine(dec, loads, schema, ctl, lines[0]) == Carry(armed, []);
    RunContinues(dec, loads, schema, ctl, lines, end);
    UsageAfterDoneEnds(dec, loads, schema, armed, lines[1..], end);
    assert [] + Run(dec, loads, schema, armed, lines[1..], end).records ==
      Run(dec, loads, schema, armed, lines[1..], end).records;
  }

  /** No line of `lines` decodes to a usage-bearing event. */
  predicate NoUsage(loads: Loads, lines: seq<string>) {
    forall i :: 0 <= i < |lines| ==> !HasUsage(ParseLine(loads, lines[i]).0)
  }

  /** For a dict event without usage, the `stream_finished` flag changes
      nothing but itself. */
  lemma DictIgnoresFlag<T>(dec: Decoder, schema: Schema<T>, ctl: Ctl, event: map<string, Value>)
    requires !HasUsage(Obj(event))
    ensures var s1 := DictStep(dec, schema, ctl.(streamFinished := true), event);
      var s2 := DictStep(dec, schema, ctl.(streamFinished := false), event);
      (s1.Carry? <==> s2.Carry?) && (!s1.Carry? ==> s1 == s2) &&
      (s1.Carry? ==> s1.out == s2.out && s1.ctl == s2.ctl.(streamFinished := true))
  {
  }

  /** For a line without usage, the `stream_finished` flag changes nothing
      but itself. */
  lemma StepIgnoresFlag<T>(dec: Decoder, loads: Loads, schema: Schema<T>, ctl: Ctl, line: string)
    requires !HasUsage(ParseLine(loads, line).0)
    ensures var s1 := StepLine(dec, loads, schema, ctl.(streamFinished := true), line);
      var s2 := StepLine(dec, loads, schema, ctl.(streamFinished := false), line);
      (s1.Carry? <==> s2.Carry?) && (!s1.Carry? ==> s1 == s2) &&
      (s1.Carry? ==> s1.out == s2.out && s1.ctl == s2.ctl.(streamFinished := s1.ctl.streamFinished))
  {
    var (event, finished) := ParseLine(loads, line);
    if !finished && Truthy(event) && event.Obj? {
      DictIgnoresFlag(dec, schema, ctl.(raw := ctl.raw + [event]), event.fields);
    }
  }

  /** The rest of a run once its first step is known. */
  function Resume<T>(dec: Decoder, loads: Loads, schema: Schema<T>, step: Step<T>, rest: seq<string>, end: End): Session<T> {
    match step
    case Carry(next, out) =>
      var later := Run(dec, loads, schema, next, rest, end);
      Session(out + later.records, later.drained)
    case Halt(out) => Session(out, false)
    case Fail(out, raw) => Session(out + [ErrorRecord(raw)], false)
  }

  lemma RunResumes<T>(dec: Decoder, loads: Loads, schema: Schema<T>, ctl: Ctl, lines: seq<string>, end: End)
    requires lines != []
    ensures Run(dec, loads, schema, ctl, lines, end) ==
      Resume(dec, loads, schema, StepLine(dec, loads, schema, ctl, lines[0]), lines[1..], end)
  {
  }

  lemma NoUsageTail(loads: Loads, lines: seq<string>)
    requires lines != [] && NoUsage(loads, lines)
    ensures NoUsage(loads, lines[1..]) && !HasUsage(ParseLine(loads, lines[0]).0)
  {
    forall i | 0 <= i < |lines[1..]|
      ensures !HasUsage(ParseLine(loads, lines[1..][i]).0)
    {
      assert lines[1..][i] == lines[i + 1];
    }
  }

  /** Without usage-bearing events, `[DONE]` has no effect on the records:
      content that follows it is still fed and validated, and the stream
      only ends when the lines run out or something raises. */
  lemma {:induction false} DoneOnlyArmsUsage<T>(dec: Decoder, loads: Loads, schema: Schema<T>, ctl: Ctl, lines: seq<string>, end: End)
    requires NoUsage(loads, lines)
    ensures Run(dec, loads, schema, ctl.(streamFinished := true), lines, end) ==
      Run(dec, loads, schema, ctl.(streamFinished := false), lines, end)
    decreases |lines|
  {
    if lines != [] {
      NoUsageTail(loads, lines);
      var s2 := StepLine(dec, loads, schema, ctl.(streamFinished := false), lines[0]);
      if s2.Carry? {
        DoneOnlyArmsUsage(dec, loads, schema, s2.ctl, lines[1..], end);
      }
      ArmedStep(dec, loads, schema, ctl, lines, end);
    }
  }

  /** One step of `DoneOnlyArmsUsage`: equal runs after the first line give
      equal runs. */
  lemma ArmedStep<T>(dec: Decoder, loads: Loads, schema: Schema<T>, ctl: Ctl, lines: seq<string>, end: End)
    requires lines != [] && !HasUsage(ParseLine(loads, lines[0]).0)
    requires var s2 := StepLine(dec, loads, schema, ctl.(streamFinished := false), lines[0]);
      s2.Carry? ==>
        Run(dec, loads, schema, s2.ctl.(streamFinished := true), lines[1..], end) ==
        Run(dec, loads, schema, s2.ctl.(streamFinished := false), lines[1..], end)
    ensures Run(dec, loads, schema, ctl.(streamFinished := true), lines, end) ==
      Run(dec, loads, schema, ctl.(streamFinished := false), lines, end)
  {
    StepIgnoresFlag(dec, loads, schema, ctl, lines[0]);
    RunResumes(dec, loads, schema, ctl.(streamFinished := true), lines, end);
    RunResumes(dec, loads, schema, ctl.(streamFinished := false), lines, end);
  }
}
