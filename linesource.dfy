/** `_StreamClient`: the line source. It walks a finished transport (the
    raw lines of an HTTP response, or the chunk objects of an OpenAI stream),
    polls a cancellation flag before each item, and closes the response on
    every way out. */
module LineSource {
  import opened Json
  import opened Text
  import opened Sse

  /** `json.dumps` on a chunk dict. The serialiser is not part of this model. */
  type Dumps = map<string, Value> -> string

  /** What the client iterates over. `lines` are the decoded lines of
      `response.iter_lines()`, `chunks` are the `model_dump()` dicts of the
      SDK stream objects, and `cancel[i]` is the state of the cancellation
      event when item `i` is pulled (no event, or an index past the end of
      `cancel`, reads as not set). `fails[i]` says that fetching item `i`
      from the transport raises (a dropped connection, say); index `Count()`
      is the fetch after the last item. */
  datatype Source = Source(
    requestType: string,
    lines: seq<string>,
    chunks: seq<map<string, Value>>,
    cancel: seq<bool>,
    fails: seq<bool>,
    dumps: Dumps)
  {
    /** `iter_lines` takes the HTTP branch only for the type `"http"`. */
    predicate IsHttp() {
      requestType == "http"
    }

    function Count(): nat {
      if IsHttp() then |lines| else |chunks|
    }

    predicate CancelledAt(i: nat) {
      i < |cancel| && cancel[i]
    }

    /** The fetch of item `i` raises, before the cancellation is checked. */
    predicate FailsAt(i: nat) {
      i <= Count() && i < |fails| && fails[i]
    }
  }

  /** How the iteration ended: the transport ran out, the cancellation event
      was seen, or the transport or extracting a finish reason raised. */
  datatype End = Exhausted | Cancelled | Raised

  /** The lines the client yields over a whole stream, and how it ends. */
  datatype Emission = Emission(lines: seq<string>, end: End)

  /** The lines one transport item yields, and whether the client raises
      right after them. */
  datatype ItemOut = ItemOut(lines: seq<string>, raises: bool)

  /** The chunk names the finish reason `f` (anything but `None`) in
      `choices[0]["finish_reason"]`. */
  predicate ReportsFinish(chunk: map<string, Value>, f: Value) {
    var choices := Get(chunk, "choices");
    choices.Arr? && choices.items != [] && choices.items[0].Obj? &&
    "finish_reason" in choices.items[0].fields &&
    choices.items[0].fields["finish_reason"] == f && f != Null
  }

  /** The shape `_extract_finish_reason` needs in order not to raise:
      `choices` empty or missing, or a list whose first entry is a dict. */
  predicate FinishShaped(chunk: map<string, Value>) {
    var choices := Get(chunk, "choices");
    !Truthy(choices) || (choices.Arr? && choices.items[0].Obj?)
  }

  /** `_extract_finish_reason(chunk)`: `choices[0]["finish_reason"]` when
      `choices` is a non-empty list, `None` when `choices` is missing or
      empty, and an exception when `choices` or its first entry is of the
      wrong kind for the lookup. */
  function FinishReason(chunk: map<string, Value>): (r: Outcome<Value>)
    ensures !Truthy(Get(chunk, "choices")) ==> r == Ok(Null)
    ensures r.Raises? <==> !FinishShaped(chunk)
    ensures r.Ok? && r.value != Null ==> ReportsFinish(chunk, r.value)
    ensures forall f :: ReportsFinish(chunk, f) ==> r == Ok(f)
    ensures r.Ok? && Truthy(Get(chunk, "choices")) ==>
      r.value == Get(Get(chunk, "choices").items[0].fields, "finish_reason")
  {
    var choices := if Truthy(Get(chunk, "choices")) then Get(chunk, "choices") else Arr([]);
    if !Truthy(choices) then Ok(Null)
    else if !choices.Arr? || !choices.items[0].Obj? then Raises
    else Ok(Get(choices.items[0].fields, "finish_reason"))
  }

  /** One body of `_iter_http_stream`'s loop: an empty line is skipped,
      any other is passed on as it is. */
  function HttpLines(raw: string): (o: ItemOut)
    ensures !o.raises
    ensures raw == [] ==> o.lines == []
    ensures raw != [] ==> o.lines == [raw]
  {
    if raw == [] then ItemOut([], false) else ItemOut([raw], false)
  }

  /** One body of `_iter_openai_stream`'s loop: an empty chunk is skipped;
      any other yields `data: <json>` and then, if the chunk names a finish
      reason, the terminator line. */
  function ChunkLines(dumps: Dumps, chunk: map<string, Value>): (o: ItemOut)
    ensures chunk == map[] ==> o == ItemOut([], false)
    ensures chunk != map[] ==> 1 <= |o.lines| <= 2 && o.lines[0] == DataPrefix + dumps(chunk)
    ensures |o.lines| == 2 <==> chunk != map[] && FinishReason(chunk).Ok? && FinishReason(chunk).value != Null
    ensures |o.lines| == 2 ==> o.lines[1] == DoneLine
    ensures o.raises <==> chunk != map[] && FinishReason(chunk).Raises?
  {
    if chunk == map[] then ItemOut([], false)
    else
      var line := DataPrefix + dumps(chunk);
      match FinishReason(chunk)
      case Raises => ItemOut([line], true)
      case Ok(f) => if f != Null then ItemOut([line, DoneLine], false) else ItemOut([line], false)
  }

  /** What item `i` of the transport yields. */
  function ItemAt(src: Source, i: nat): (o: ItemOut)
    requires i < src.Count()
    ensures o.raises ==> o.lines != []
  {
    if src.IsHttp() then HttpLines(src.lines[i]) else ChunkLines(src.dumps, src.chunks[i])
  }

  /** `iter_lines` from item `from` on: the lines yielded before the
      transport runs out, the cancellation event is seen, or the transport or
      a finish reason raises. */
  function Emit(src: Source, from: nat): (e: Emission)
    decreases src.Count() - from
  {
    if src.FailsAt(from) then Emission([], Raised)
    else if from >= src.Count() then Emission([], Exhausted)
    else if src.CancelledAt(from) then Emission([], Cancelled)
    else
      var o := ItemAt(src, from);
      if o.raises then Emission(o.lines, Raised)
      else
        var rest := Emit(src, from + 1);
        Emission(o.lines + rest.lines, rest.end)
  }

  /** Two transports that hold the same items before `i`, fail to fetch
      the same ones, and are both cancelled at `i`. */
  predicate AgreeBefore(s1: Source, s2: Source, from: nat, i: nat) {
    i < s1.Count() && i < s2.Count() && s1.CancelledAt(i) && s2.CancelledAt(i) &&
    s1.FailsAt(i) == s2.FailsAt(i) &&
    forall j :: from <= j < i ==>
      ItemAt(s1, j) == ItemAt(s2, j) && s1.CancelledAt(j) == s2.CancelledAt(j) &&
      s1.FailsAt(j) == s2.FailsAt(j)
  }

  /** Once the cancellation event is seen, nothing more is yielded: the
      output does not depend on anything the transport holds from there on. */
  lemma {:induction false} CancelCutsOff(s1: Source, s2: Source, from: nat, i: nat)
    requires from <= i
    requires AgreeBefore(s1, s2, from, i)
    ensures Emit(s1, from) == Emit(s2, from)
    decreases i - from
  {
    if from < i && !s1.FailsAt(from) && !s1.CancelledAt(from) && !ItemAt(s1, from).raises {
      CancelCutsOff(s1, s2, from + 1, i);
    }
  }

  /** A cancelled stream ends `Cancelled` unless a finish reason raised
      before the cancellation was seen. */
  lemma {:induction false} CancelEnds(src: Source, from: nat, i: nat)
    requires from <= i < src.Count() && src.CancelledAt(i)
    ensures Emit(src, from).end != Exhausted
    decreases i - from
  {
    if from < i && !src.FailsAt(from) && !src.CancelledAt(from) && !ItemAt(src, from).raises {
      CancelEnds(src, from + 1, i);
    }
  }

  /** A transport whose fetch of item `i` fails ends the iteration raising,
      unless the cancellation event is seen first. */
  lemma {:induction false} FailureRaises(src: Source, from: nat, i: nat)
    requires from <= i && src.FailsAt(i)
    ensures Emit(src, from).end == Raised || exists j :: from <= j < i && src.CancelledAt(j)
    decreases i - from
  {
    if from < i && !src.FailsAt(from) && !src.CancelledAt(from) && !ItemAt(src, from).raises {
      FailureRaises(src, from + 1, i);
    }
  }

  /** Every line the client synthesises from a well-formed chunk reads back
      through `parse_line`: the data line gives the chunk itself, and the
      extra line is the terminator, present exactly when the chunk names a
      finish reason. */
  lemma ChunkRoundTrip(loads: Loads, dumps: Dumps, chunk: map<string, Value>)
    requires chunk != map[] && FinishReason(chunk).Ok?
    requires loads(dumps(chunk)) == Some(Obj(chunk)) && dumps(chunk) != DoneMarker
    ensures var o := ChunkLines(dumps, chunk);
      ParseLine(loads, o.lines[0]) == (Obj(chunk), false) && !o.raises &&
      (|o.lines| == 2 <==> FinishReason(chunk).value != Null) &&
      (|o.lines| == 2 ==> ParseLine(loads, o.lines[1]) == (Null, true))
  {
    ParsesPayload(loads, dumps(chunk));
  }

  /** The loop over the transport stops at a cancellation, ... */
  lemma EmitCancelled(src: Source, i: nat)
    requires i < src.Count() && !src.FailsAt(i) && src.CancelledAt(i)
    ensures Emit(src, i) == Emission([], Cancelled)
  {
  }

  /** ... and otherwise yields the item's lines first. An item that yields
      nothing is skipped; an emission that ends raising has a line. */
  lemma EmitItem(src: Source, i: nat)
    requires i < src.Count() && !src.FailsAt(i) && !src.CancelledAt(i)
    ensures var o := ItemAt(src, i);
      (o.lines == [] ==> Emit(src, i) == Emit(src, i + 1)) &&
      (o.raises ==> Emit(src, i) == Emission(o.lines, Raised)) &&
      (o.lines != [] && !o.raises ==>
        Emit(src, i) == Emission(o.lines + Emit(src, i + 1).lines, Emit(src, i + 1).end))
  {
    assert [] + Emit(src, i + 1).lines == Emit(src, i + 1).lines;
  }

  /** A failed fetch ends the iteration raising, with nothing yielded. */
  lemma EmitFailed(src: Source, i: nat)
    requires src.FailsAt(i)
    ensures Emit(src, i) == Emission([], Raised)
  {
  }

  /** The transport running out ends it. */
  lemma EmitExhausted(src: Source)
    requires !src.FailsAt(src.Count())
    ensures Emit(src, src.Count()) == Emission([], Exhausted)
  {
  }

  /** Handing out the first of the queued lines `q` that precede `rest`. */
  lemma ShiftQueue(done: seq<string>, q: seq<string>, rest: seq<string>)
    requires q != []
    ensures (done + [q[0]]) + (q[1..] + rest) == done + (q + rest)
    ensures (q + rest)[0] == q[0] && (q + rest)[1..] == q[1..] + rest
    ensures done + [q[0]] <= done + (q + rest)
    ensures q + [] == q
  {
  }

  /** The outcome of pulling one line from the generator: the line, the end
      of iteration, or the exception it raises. */
  datatype Pull = Got(line: string) | Finished | Failed

  /** The generator `iter_lines()` over one response, suspended between
      lines. `closes` counts the calls of `response.close()`. */
  class StreamClient {
    const src: Source
    /** The next transport item to pull. */
    var pos: nat
    /** Lines of the current item not handed out yet. */
    var queue: seq<string>
    /** Extracting the current item's finish reason raises once the queue
        is empty. */
    var raisesNext: bool
    /** The generator has returned, raised, or been closed. */
    var done: bool
    /** `next()` has run the generator's body up to a `yield`. */
    var started: bool
    var closes: nat
    /** Everything the generator yields over its life, and how it ends. */
    ghost const whole: Emission
    ghost var yielded: seq<string>

    /** What is still to come while the generator runs. */
    ghost function Rest(): Emission
      reads this
      requires pos <= src.Count()
    {
      if raisesNext then Emission(queue, Raised)
      else
        var e := Emit(src, pos);
        Emission(queue + e.lines, e.end)
    }

    /** The lines handed out so far followed by what is still to come are
        the whole emission; the response is closed only once it is done. */
    ghost predicate Valid()
      reads this
    {
      pos <= src.Count() &&
      (!done ==> closes == 0 && whole == Emission(yielded + Rest().lines, Rest().end)) &&
      (done ==> queue == [] && !raisesNext && closes <= 2) &&
      (done && started ==> 1 <= closes) &&
      (started <==> yielded != []) &&
      yielded <= whole.lines
    }

    constructor (src: Source)
      ensures Valid() && this.src == src && whole == Emit(src, 0)
      ensures !done && yielded == [] && Rest() == whole
    {
      this.src := src;
      whole := Emit(src, 0);
      pos, queue, raisesNext, done, started, closes := 0, [], false, false, false, 0;
      yielded := [];
    }

    /** `next()` on the generator: the next line of the emission while there
        is one; at the end, the response is closed (twice after a
        cancellation: once by `_iteration_cancelled`, once by the `finally`)
        and the generator stops or raises. */
    method NextLine() returns (p: Pull)
      requires Valid()
      modifies this
      ensures Valid()
      ensures old(done) ==> p == Finished && done && closes == old(closes) && yielded == old(yielded)
      ensures !old(done) && old(Rest()).lines != [] ==>
        p == Got(old(Rest()).lines[0]) && !done && closes == old(closes) &&
        yielded == old(yielded) + [p.line] &&
        Rest() == Emission(old(Rest()).lines[1..], old(Rest()).end)
      ensures !old(done) && old(Rest()).lines == [] ==>
        done && yielded == old(yielded) &&
        p == (if old(Rest()).end == Raised then Failed else Finished) &&
        closes == old(closes) + (if old(Rest()).end == Cancelled then 2 else 1)
    {
      if done {
        return Finished;
      }
      if queue == [] && !raisesNext {
        Refill();
        if done {
          return Finished;
        }
      }
      if queue != [] {
        p := TakeQueued();
      } else {
        raisesNext, done, closes := false, true, closes + 1;
        p := Failed;
      }
    }

    /** Resumes the loop over the transport until an item yields lines, the
        cancellation event is seen, a fetch fails, or the transport runs out.
        A failed fetch is left pending, to be raised by the caller. */
    method Refill()
      requires Valid() && !done && queue == [] && !raisesNext
      modifies this`pos, this`queue, this`raisesNext, this`done, this`closes
      ensures Valid() && yielded == old(yielded)
      ensures old(Rest()).lines == [] && old(Rest()).end != Raised ==>
        done && closes == old(closes) + (if old(Rest()).end == Cancelled then 2 else 1)
      ensures old(Rest()).lines == [] && old(Rest()).end == Raised ==>
        !done && queue == [] && raisesNext && closes == old(closes)
      ensures old(Rest()).lines != [] ==>
        !done && queue != [] && closes == old(closes) && Rest() == old(Rest())
    {
      var i := SkipSilent(pos);
      if src.FailsAt(i) {
        EmitFailed(src, i);
        raisesNext := true;
      } else if i == src.Count() {
        EmitExhausted(src);
        done, closes := true, closes + 1;
      } else if src.CancelledAt(i) {
        EmitCancelled(src, i);
        closes := closes + 1;
        done, closes := true, closes + 1;
      } else {
        var o := ItemAt(src, i);
        EmitItem(src, i);
        pos, queue, raisesNext := i + 1, o.lines, o.raises;
      }
    }

    /** The loop over the transport passing over items that yield no line:
        the first item from `from` on that fails, is cancelled, or yields
        lines, or the end of the transport. */
    method SkipSilent(from: nat) returns (i: nat)
      requires from <= src.Count()
      ensures from <= i <= src.Count() && Emit(src, i) == Emit(src, from)
      ensures i == src.Count() || src.FailsAt(i) || src.CancelledAt(i) || ItemAt(src, i).lines != []
    {
      i := from;
      while i < src.Count() && !src.FailsAt(i) && !src.CancelledAt(i) && ItemAt(src, i).lines == []
        invariant from <= i <= src.Count()
        invariant Emit(src, i) == Emit(src, from)
        decreases src.Count() - i
      {
        EmitItem(src, i);
        i := i + 1;
      }
    }

    /** Hands out the first queued line. */
    method TakeQueued() returns (p: Pull)
      requires Valid() && !done && queue != []
      modifies this`queue, this`yielded, this`started
      ensures Valid() && p == Got(old(Rest()).lines[0]) && started
      ensures yielded == old(yielded) + [p.line]
      ensures Rest() == Emission(old(Rest()).lines[1..], old(Rest()).end)
    {
      p := Got(queue[0]);
      ShiftQueue(yielded, queue, if raisesNext then [] else Emit(src, pos).lines);
      yielded, queue, started := yielded + [queue[0]], queue[1..], true;
    }

    /** `close()` on the generator, as when the consumer stops early: a
        generator suspended at a `yield` closes the response once in its
        `finally`; one whose body never ran is only marked finished. */
    method Dispose()
      requires Valid()
      modifies this
      ensures Valid() && done && yielded == old(yielded)
      ensures closes == if old(done) || old(yielded) == [] then old(closes) else old(closes) + 1
    {
      if !done {
        queue, raisesNext, done := [], false, true;
        if started {
          closes := closes + 1;
        }
      }
    }
  }
}
