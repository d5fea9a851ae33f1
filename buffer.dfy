/** The incremental array buffer (`_TokenBuffer`): text deltas go in, every
    element of the top-level JSON array that has become decodable at the
    front of the buffer comes out.

    `Drain` and `FeedSpec` specify the buffer as written in the source;
    `SafeDrain` and `SafeFeed` specify the corrected buffer, which also
    accepts a separating comma that arrives at the start of a later delta.
    The class `TokenBuffer` implements the first, `SafeTokenBuffer` the second. */
module Buffer {
  import opened Json
  import opened Text

  /** The fields of `_TokenBuffer`: `_buffer`, `_array_started`, `_saw_chunk`. */
  datatype Pending = Pending(text: string, open: bool, saw: bool)

  /** What one `feed` returns, and the state it leaves. */
  datatype Fed = Fed(state: Pending, values: seq<Value>)

  /** Where the `while True` loop of `feed` stops: the text left buffered,
      whether it stopped at the closing `]`, and the values it decoded. */
  datatype Pass = Pass(rest: string, closed: bool, values: seq<Value>)

  function DropComma(s: string): (r: string)
    ensures |r| <= |s|
  {
    if s != [] && s[0] == ',' then s[1..] else s
  }

  /** What follows a value decoded at the front of `b` and ending at `off`:
      the whitespace after it and at most one comma are dropped. */
  function AfterValue(b: string, off: nat): (r: string)
    requires 0 < off <= |b|
    ensures |r| < |b|
  {
    DropComma(LStrip(b[off..]))
  }

  /** One turn of the loop: it stops with its final outcome, or it has
      decoded a value and goes on with the text after it. */
  datatype Turn = Stop(pass: Pass) | Next(value: Value, after: string)

  /** One turn of the `while True` loop of `feed` on the stripped buffer `b`:
      stop at an empty buffer, close on `]`, stop where the decoder fails,
      and otherwise decode one value at position 0 and drop it, the
      whitespace after it and at most one comma. */
  function DrainTurn(dec: Decoder, b: string): (t: Turn)
    ensures t.Stop? ==> |t.pass.rest| <= |b|
    ensures t.Next? ==> |t.after| < |b|
  {
    if b == [] then Stop(Pass([], false, []))
    else if b[0] == ']' then Stop(Pass(b[1..], true, []))
    else match dec(b)
      case None => Stop(Pass(b, false, []))
      case Some((v, off)) => Next(v, AfterValue(b, off))
  }

  /** The loop of `feed` once the array is open, turn after turn, each turn
      starting by stripping the buffer's leading whitespace. */
  function Drain(dec: Decoder, buf: string): (d: Pass)
    ensures |d.rest| <= |buf|
    decreases |buf|
  {
    match DrainTurn(dec, LStrip(buf))
    case Stop(p) => p
    case Next(v, after) => Prepend([v], Drain(dec, after))
  }

  /** The buffer after a pass of the loop: what is left, open unless the
      closing `]` was met, and a delta seen. */
  function Finish(d: Pass): Fed {
    Fed(Pending(d.rest, !d.closed, true), d.values)
  }

  /** `_TokenBuffer.feed(chunk)` on state `st`. */
  function FeedSpec(dec: Decoder, st: Pending, chunk: string): Fed {
    if chunk == [] then Fed(st, [])
    else
      var text := st.text + chunk;
      if !st.open then
        var i := FindChar(text, '[');
        if i < 0 then Fed(Pending(text, false, true), [])
        else Finish(Drain(dec, text[i + 1..]))
      else Finish(Drain(dec, text))
  }

  /** `feed` once the array is open. */
  lemma FeedWhenOpen(dec: Decoder, st: Pending, chunk: string, text: string)
    requires chunk != [] && st.open && text == st.text + chunk
    ensures FeedSpec(dec, st, chunk) == Finish(Drain(dec, text))
  {
  }

  /** `feed` of the delta that brings the opening `[`, at index `i`. */
  lemma FeedOpening(dec: Decoder, st: Pending, chunk: string, text: string, i: int)
    requires chunk != [] && !st.open && text == st.text + chunk
    requires i == FindChar(text, '[') && 0 <= i
    ensures FeedSpec(dec, st, chunk) == Finish(Drain(dec, text[i + 1..]))
  {
  }

  /** `feed` of a delta while no `[` has arrived. */
  lemma FeedBeforeOpen(dec: Decoder, st: Pending, chunk: string, text: string)
    requires chunk != [] && !st.open && text == st.text + chunk && FindChar(text, '[') < 0
    ensures FeedSpec(dec, st, chunk) == Fed(Pending(text, false, true), [])
  {
  }

  function Prepend(vs: seq<Value>, d: Pass): Pass {
    Pass(d.rest, d.closed, vs + d.values)
  }

  lemma PrependNothing(d: Pass)
    ensures Prepend([], d) == d && Prepend(d.values, Pass(d.rest, d.closed, [])) == d
  {
    assert [] + d.values == d.values;
    assert d.values + [] == d.values;
  }

  lemma PrependAppend(vs: seq<Value>, v: Value, d: Pass)
    ensures Prepend(vs, Prepend([v], d)) == Prepend(vs + [v], d)
  {
    assert vs + ([v] + d.values) == (vs + [v]) + d.values;
  }

  /** One turn of the loop on a stripped buffer that starts with a decodable value. */
  lemma DrainOnValue(dec: Decoder, b: string)
    requires LStrip(b) == b && b != [] && b[0] != ']' && dec(b).Some?
    ensures Drain(dec, b) == Prepend([dec(b).value.0], Drain(dec, AfterValue(b, dec(b).value.1)))
  {
  }

  /** The three ways the loop stops on a stripped buffer. */
  lemma DrainStops(dec: Decoder, b: string)
    requires LStrip(b) == b
    ensures b == [] ==> Drain(dec, b) == Pass([], false, [])
    ensures b != [] && b[0] == ']' ==> Drain(dec, b) == Pass(b[1..], true, [])
    ensures b != [] && b[0] != ']' && dec(b).None? ==> Drain(dec, b) == Pass(b, false, [])
  {
  }

  /** The loop only looks at the buffer after stripping it. */
  lemma DrainStripped(dec: Decoder, buf: string)
    ensures Drain(dec, buf) == Drain(dec, LStrip(buf))
  {
    LStripIdempotent(buf);
  }

  /** The loop ends at the closing `]` or where it is stuck: what is left is
      stripped, and is empty or starts with text the decoder rejects. */
  lemma {:induction false} DrainStuck(dec: Decoder, buf: string)
    ensures var d := Drain(dec, buf);
      !d.closed ==>
        LStrip(d.rest) == d.rest && (d.rest != [] ==> d.rest[0] != ']' && dec(d.rest).None?)
    decreases |buf|
  {
    LStripIdempotent(buf);
    var t := DrainTurn(dec, LStrip(buf));
    if t.Next? {
      DrainStuck(dec, t.after);
    }
  }

  /** Feeding nothing changes nothing; before a `[` has been seen every delta
      is kept whole and nothing is returned; the delta that brings the first
      `[` discards everything through it and decodes from the character after. */
  lemma FeedBeforeArray(dec: Decoder, st: Pending, chunk: string)
    ensures chunk == [] ==> FeedSpec(dec, st, chunk) == Fed(st, [])
    ensures chunk != [] && !st.open && '[' !in st.text + chunk ==>
      FeedSpec(dec, st, chunk) == Fed(Pending(st.text + chunk, false, true), [])
    ensures chunk != [] && !st.open && '[' in st.text + chunk ==>
      var text := st.text + chunk;
      var i := FindChar(text, '[');
      0 <= i && '[' !in text[..i] && IsSuffix(FeedSpec(dec, st, chunk).state.text, text[i + 1..])
  {
    var text := st.text + chunk;
    FindCharFirst(text, '[');
    if chunk != [] && !st.open && '[' in text {
      DrainSuffix(dec, text[FindChar(text, '[') + 1..]);
    }
  }

  /** What one turn leaves is a suffix of what it started from. */
  lemma DrainTurnSuffix(dec: Decoder, b: string)
    ensures var t := DrainTurn(dec, b);
      IsSuffix(if t.Stop? then t.pass.rest else t.after, b)
  {
    if b != [] {
      if b[0] == ']' {
        SuffixDrop(b, 1);
      } else if dec(b).Some? {
        var off := dec(b).value.1;
        SuffixDrop(b, off);
        LStripSuffix(b[off..]);
        SuffixTransitive(LStrip(b[off..]), b[off..], b);
        SuffixTransitive(AfterValue(b, off), LStrip(b[off..]), b);
      }
    }
  }

  /** What the loop leaves buffered is a suffix of what it started with. */
  lemma {:induction false} DrainSuffix(dec: Decoder, buf: string)
    ensures IsSuffix(Drain(dec, buf).rest, buf)
    decreases |buf|
  {
    var b := LStrip(buf);
    LStripSuffix(buf);
    DrainTurnSuffix(dec, b);
    var t := DrainTurn(dec, b);
    if t.Stop? {
      SuffixTransitive(t.pass.rest, b, buf);
    } else {
      DrainSuffix(dec, t.after);
      SuffixTransitive(t.after, b, buf);
      SuffixTransitive(Drain(dec, t.after).rest, t.after, buf);
    }
  }

  /** `feed` only ever removes text from the front: what stays buffered is a
      suffix of the old buffer followed by the delta. */
  lemma FeedSuffix(dec: Decoder, st: Pending, chunk: string)
    ensures IsSuffix(FeedSpec(dec, st, chunk).state.text, st.text + chunk)
  {
    var text := st.text + chunk;
    if chunk == [] {
      assert text == st.text;
    } else if st.open {
      FeedWhenOpen(dec, st, chunk, text);
      DrainSuffix(dec, text);
    } else if 0 <= FindChar(text, '[') {
      var i := FindChar(text, '[');
      FeedOpening(dec, st, chunk, text, i);
      DrainSuffix(dec, text[i + 1..]);
      SuffixDrop(text, i + 1);
      SuffixTransitive(Drain(dec, text[i + 1..]).rest, text[i + 1..], text);
    } else {
      FeedBeforeOpen(dec, st, chunk, text);
    }
  }

  /** The corrected buffer's state: the source's three fields and whether a
      value has been decoded whose separating comma has not arrived yet. */
  datatype SafePending = SafePending(text: string, open: bool, saw: bool, owed: bool)

  datatype SafeFed = SafeFed(state: SafePending, values: seq<Value>)

  datatype SafePass = SafePass(rest: string, owed: bool, closed: bool, values: seq<Value>)

  /** One turn of the corrected loop: it stops with its final outcome, or it
      goes on with the text after what it consumed. */
  datatype SafeTurn = SafeStop(pass: SafePass) | SafeNext(values: seq<Value>, after: string, owed: bool)

  /** One turn of the corrected loop on the stripped buffer `b`: as
      `DrainTurn`, except that a decoded value leaves a comma owed, and an owed
      comma is dropped whenever it turns up at the front. */
  function SafeDrainTurn(dec: Decoder, b: string, owed: bool): (t: SafeTurn)
    ensures t.SafeStop? ==> |t.pass.rest| <= |b| && (t.pass.closed ==> !t.pass.owed)
    ensures t.SafeNext? ==> |t.after| < |b|
  {
    if b == [] then SafeStop(SafePass([], owed, false, []))
    else if b[0] == ']' then SafeStop(SafePass(b[1..], false, true, []))
    else if owed && b[0] == ',' then SafeNext([], b[1..], false)
    else match dec(b)
      case None => SafeStop(SafePass(b, owed, false, []))
      case Some((v, off)) => SafeNext([v], b[off..], true)
  }

  /** The corrected loop, turn after turn. */
  function SafeDrain(dec: Decoder, buf: string, owed: bool): (d: SafePass)
    ensures |d.rest| <= |buf|
    ensures d.closed ==> !d.owed
    decreases |buf|
  {
    match SafeDrainTurn(dec, LStrip(buf), owed)
    case SafeStop(p) => p
    case SafeNext(vs, after, o) => SafePrepend(vs, SafeDrain(dec, after, o))
  }

  function SafeFinish(d: SafePass): SafeFed {
    SafeFed(SafePending(d.rest, !d.closed, true, d.owed), d.values)
  }

  /** The corrected `feed(chunk)` on state `st`. */
  function SafeFeed(dec: Decoder, st: SafePending, chunk: string): SafeFed {
    if chunk == [] then SafeFed(st, [])
    else
      var text := st.text + chunk;
      if !st.open then
        var i := FindChar(text, '[');
        if i < 0 then SafeFed(SafePending(text, false, true, st.owed), [])
        else SafeFinish(SafeDrain(dec, text[i + 1..], false))
      else SafeFinish(SafeDrain(dec, text, st.owed))
  }

  /** The corrected `feed` once the array is open. */
  lemma SafeFeedWhenOpen(dec: Decoder, st: SafePending, chunk: string, text: string)
    requires chunk != [] && st.open && text == st.text + chunk
    ensures SafeFeed(dec, st, chunk) == SafeFinish(SafeDrain(dec, text, st.owed))
  {
  }

  /** The corrected `feed` of the delta that brings the opening `[`, at index `i`. */
  lemma SafeFeedOpening(dec: Decoder, st: SafePending, chunk: string, text: string, i: int)
    requires chunk != [] && !st.open && text == st.text + chunk
    requires i == FindChar(text, '[') && 0 <= i
    ensures SafeFeed(dec, st, chunk) == SafeFinish(SafeDrain(dec, text[i + 1..], false))
  {
  }

  /** The corrected `feed` of a delta while no `[` has arrived. */
  lemma SafeFeedBeforeOpen(dec: Decoder, st: SafePending, chunk: string, text: string)
    requires chunk != [] && !st.open && text == st.text + chunk && FindChar(text, '[') < 0
    ensures SafeFeed(dec, st, chunk) == SafeFed(SafePending(text, false, true, st.owed), [])
  {
  }

  /** What one corrected turn leaves is a suffix of what it started from. */
  lemma SafeDrainTurnSuffix(dec: Decoder, b: string, owed: bool)
    ensures var t := SafeDrainTurn(dec, b, owed);
      IsSuffix(if t.SafeStop? then t.pass.rest else t.after, b)
  {
    if b != [] {
      if b[0] == ']' || (owed && b[0] == ',') {
        SuffixDrop(b, 1);
      } else if dec(b).Some? {
        SuffixDrop(b, dec(b).value.1);
      }
    }
  }

  /** What the corrected loop leaves buffered is a suffix of what it started with. */
  lemma {:induction false} SafeDrainSuffix(dec: Decoder, buf: string, owed: bool)
    ensures IsSuffix(SafeDrain(dec, buf, owed).rest, buf)
    decreases |buf|
  {
    var b := LStrip(buf);
    LStripSuffix(buf);
    SafeDrainTurnSuffix(dec, b, owed);
    var t := SafeDrainTurn(dec, b, owed);
    if t.SafeStop? {
      SuffixTransitive(t.pass.rest, b, buf);
    } else {
      SafeDrainSuffix(dec, t.after, t.owed);
      SuffixTransitive(t.after, b, buf);
      SuffixTransitive(SafeDrain(dec, t.after, t.owed).rest, t.after, buf);
    }
  }

  /** Hence if the buffer is a suffix of everything fed, it stays one. */
  lemma FeedKeepsSuffix(dec: Decoder, st: Pending, chunk: string, fed: string)
    requires IsSuffix(st.text, fed)
    ensures IsSuffix(FeedSpec(dec, st, chunk).state.text, fed + chunk)
  {
    FeedSuffix(dec, st, chunk);
    SuffixAppend(st.text, fed, chunk);
    SuffixTransitive(FeedSpec(dec, st, chunk).state.text, st.text + chunk, fed + chunk);
  }

  /** The corrected `feed` also only removes text from the front. */
  lemma SafeFeedSuffix(dec: Decoder, st: SafePending, chunk: string)
    ensures IsSuffix(SafeFeed(dec, st, chunk).state.text, st.text + chunk)
  {
    var text := st.text + chunk;
    if chunk == [] {
      assert text == st.text;
    } else if st.open {
      SafeFeedWhenOpen(dec, st, chunk, text);
      SafeDrainSuffix(dec, text, st.owed);
    } else if 0 <= FindChar(text, '[') {
      var i := FindChar(text, '[');
      SafeFeedOpening(dec, st, chunk, text, i);
      SafeDrainSuffix(dec, text[i + 1..], false);
      SuffixDrop(text, i + 1);
      SuffixTransitive(SafeDrain(dec, text[i + 1..], false).rest, text[i + 1..], text);
    } else {
      SafeFeedBeforeOpen(dec, st, chunk, text);
    }
  }

  function SafePrepend(vs: seq<Value>, d: SafePass): SafePass {
    SafePass(d.rest, d.owed, d.closed, vs + d.values)
  }

  lemma SafePrependNothing(d: SafePass)
    ensures SafePrepend([], d) == d && SafePrepend(d.values, SafePass(d.rest, d.owed, d.closed, [])) == d
  {
    assert [] + d.values == d.values;
    assert d.values + [] == d.values;
  }

  lemma SafePrependAppend(vs: seq<Value>, v: Value, d: SafePass)
    ensures SafePrepend(vs, SafePrepend([v], d)) == SafePrepend(vs + [v], d)
  {
    assert vs + ([v] + d.values) == (vs + [v]) + d.values;
  }

  lemma SafePrependAppendSeq(vs: seq<Value>, ws: seq<Value>, d: SafePass)
    ensures SafePrepend(vs, SafePrepend(ws, d)) == SafePrepend(vs + ws, d)
  {
    assert vs + (ws + d.values) == (vs + ws) + d.values;
  }

  /** One turn of the corrected loop on a stripped buffer. */
  lemma SafeDrainStops(dec: Decoder, b: string, owed: bool)
    requires LStrip(b) == b
    ensures b == [] ==> SafeDrain(dec, b, owed) == SafePass([], owed, false, [])
    ensures b != [] && b[0] == ']' ==> SafeDrain(dec, b, owed) == SafePass(b[1..], false, true, [])
    ensures b != [] && b[0] != ']' && owed && b[0] == ',' ==>
      SafeDrain(dec, b, owed) == SafeDrain(dec, b[1..], false)
    ensures b != [] && b[0] != ']' && !(owed && b[0] == ',') && dec(b).None? ==>
      SafeDrain(dec, b, owed) == SafePass(b, owed, false, [])
    ensures b != [] && b[0] != ']' && !(owed && b[0] == ',') && dec(b).Some? ==>
      SafeDrain(dec, b, owed) ==
        SafePrepend([dec(b).value.0], SafeDrain(dec, b[dec(b).value.1..], true))
  {
  }

  lemma SafeFeedKeepsSuffix(dec: Decoder, st: SafePending, chunk: string, fed: string)
    requires IsSuffix(st.text, fed)
    ensures IsSuffix(SafeFeed(dec, st, chunk).state.text, fed + chunk)
  {
    SafeFeedSuffix(dec, st, chunk);
    SuffixAppend(st.text, fed, chunk);
    SuffixTransitive(SafeFeed(dec, st, chunk).state.text, st.text + chunk, fed + chunk);
  }

  lemma SafeDrainStripped(dec: Decoder, buf: string, owed: bool)
    ensures SafeDrain(dec, buf, owed) == SafeDrain(dec, LStrip(buf), owed)
  {
    LStripIdempotent(buf);
  }

  /** The corrected loop ends at the closing `]` or where it is stuck: what is
      left is stripped, and is empty or starts with text the decoder rejects
      that is not an owed comma. */
  lemma {:induction false} SafeDrainStuck(dec: Decoder, buf: string, owed: bool)
    ensures var d := SafeDrain(dec, buf, owed);
      !d.closed ==>
        LStrip(d.rest) == d.rest &&
        (d.rest != [] ==> d.rest[0] != ']' && dec(d.rest).None? && !(d.owed && d.rest[0] == ','))
    decreases |buf|
  {
    LStripIdempotent(buf);
    var t := SafeDrainTurn(dec, LStrip(buf), owed);
    if t.SafeNext? {
      SafeDrainStuck(dec, t.after, t.owed);
    }
  }

  /** The two loops end alike: same text left, same closing, same values. */
  predicate SameEnd(s: SafePass, w: Pass) {
    s.rest == w.rest && s.closed == w.closed && s.values == w.values
  }

  /** With no comma owed the corrected loop does what the source's loop does. */
  lemma {:induction false} SafeDrainAgrees(dec: Decoder, x: string)
    ensures SameEnd(SafeDrain(dec, x, false), Drain(dec, x))
    decreases |x|, 1
  {
    var b := LStrip(x);
    if b != [] && b[0] != ']' {
      match dec(b)
      case None =>
      case Some((v, off)) =>
        assert AfterValue(b, off) == DropComma(LStrip(b[off..]));
        SafeDrainAgreesOwed(dec, b[off..]);
    }
  }

  /** With a comma owed it does what the source's loop does after dropping
      the whitespace and the comma that follow a value. */
  lemma {:induction false} SafeDrainAgreesOwed(dec: Decoder, x: string)
    ensures SameEnd(SafeDrain(dec, x, true), Drain(dec, DropComma(LStrip(x))))
    decreases |x|, 0
  {
    var b := LStrip(x);
    LStripIdempotent(x);
    if b == [] || b[0] == ']' {
    } else if b[0] == ',' {
      SafeDrainAgrees(dec, b[1..]);
    } else {
      assert DropComma(b) == b;
      match dec(b)
      case None =>
      case Some((v, off)) =>
        assert AfterValue(b, off) == DropComma(LStrip(b[off..]));
        SafeDrainAgreesOwed(dec, b[off..]);
    }
  }

  /** From a state that owes no comma, the corrected `feed` returns what the
      source's `feed` returns and leaves the same text and flags. */
  lemma SafeFeedAgrees(dec: Decoder, st: Pending, chunk: string)
    ensures var s := SafeFeed(dec, SafePending(st.text, st.open, st.saw, false), chunk);
            var w := FeedSpec(dec, st, chunk);
            s.values == w.values && s.state.text == w.state.text &&
            s.state.open == w.state.open && s.state.saw == w.state.saw
  {
    var st' := SafePending(st.text, st.open, st.saw, false);
    if chunk != [] {
      var text := st.text + chunk;
      if st.open {
        SafeFeedWhenOpen(dec, st', chunk, text);
        FeedWhenOpen(dec, st, chunk, text);
        SafeDrainAgrees(dec, text);
      } else if 0 <= FindChar(text, '[') {
        var i := FindChar(text, '[');
        SafeFeedOpening(dec, st', chunk, text, i);
        FeedOpening(dec, st, chunk, text, i);
        SafeDrainAgrees(dec, text[i + 1..]);
      } else {
        SafeFeedBeforeOpen(dec, st', chunk, text);
        FeedBeforeOpen(dec, st, chunk, text);
      }
    }
  }

  /** `_TokenBuffer` as written. */
  class TokenBuffer {
    const decoder: Decoder
    var buffer: string
    var arrayStarted: bool
    var sawChunk: bool
    /** Every character ever fed, in order. */
    ghost var fed: string

    /** A chunk has been seen exactly when something has been fed. */
    ghost predicate Valid()
      reads this
    {
      sawChunk <==> fed != []
    }

    function State(): Pending
      reads this
    {
      Pending(buffer, arrayStarted, sawChunk)
    }

    constructor (decoder: Decoder)
      ensures Valid() && fed == []
      ensures this.decoder == decoder && State() == Pending([], false, false)
    {
      this.decoder := decoder;
      buffer, arrayStarted, sawChunk := [], false, false;
      fed := [];
    }

    /** `feed(chunk)`. */
    method Feed(chunk: string) returns (parsed: seq<Value>)
      requires Valid()
      modifies this
      ensures Fed(State(), parsed) == FeedSpec(decoder, old(State()), chunk)
      ensures Valid() && fed == old(fed) + chunk
    {
      ghost var st := State();
      parsed := [];
      if chunk == [] {
        assert old(fed) + chunk == old(fed);
        return;
      }
      sawChunk := true;
      buffer := buffer + chunk;
      fed := fed + chunk;
      ghost var text := buffer;
      if !arrayStarted {
        var startIdx := FindChar(buffer, '[');
        if startIdx == -1 {
          FeedBeforeOpen(decoder, st, chunk, text);
          return;
        }
        FeedOpening(decoder, st, chunk, text, startIdx);
        arrayStarted := true;
        buffer := buffer[startIdx + 1..];
      } else {
        FeedWhenOpen(decoder, st, chunk, text);
      }
      ghost var want := Drain(decoder, buffer);
      assert FeedSpec(decoder, st, chunk) == Finish(want);
      parsed := DrainBuffer();
      assert Pass(buffer, !arrayStarted, parsed) == want;
    }

    /** The `while True` loop of `feed`, entered once the array is open: it
        ends where `Drain` ends, having collected what `Drain` collects. */
    method DrainBuffer() returns (parsed: seq<Value>)
      requires arrayStarted
      modifies this`buffer, this`arrayStarted
      ensures Pass(buffer, !arrayStarted, parsed) == Drain(decoder, old(buffer))
    {
      var b, open := buffer, true;
      parsed := [];
      PrependNothing(Drain(decoder, b));
      while true
        invariant Drain(decoder, old(buffer)) == Prepend(parsed, Drain(decoder, b))
        decreases |b|
      {
        DrainStripped(decoder, b);
        b := LStrip(b);
        DrainStops(decoder, b);
        if b == [] {
          break;
        }
        if b[0] == ']' {
          b := b[1..];
          open := false;
          break;
        }
        var r := decoder(b);
        if r.None? {
          break;
        }
        DrainOnValue(decoder, b);
        var (obj, offset) := r.value;
        PrependAppend(parsed, obj, Drain(decoder, AfterValue(b, offset)));
        parsed := parsed + [obj];
        b := b[offset..];
        b := LStrip(b);
        if b != [] && b[0] == ',' {
          b := b[1..];
        }
      }
      PrependNothing(Pass(b, !open, parsed));
      buffer, arrayStarted := b, open;
    }

    /** `saw_content()`: whether any non-empty delta has been fed. */
    method SawContent() returns (saw: bool)
      requires Valid()
      ensures saw <==> fed != []
    {
      saw := sawChunk;
    }
  }

  /** The corrected buffer: `TokenBuffer` plus a flag for an owed comma. */
  class SafeTokenBuffer {
    const decoder: Decoder
    var buffer: string
    var arrayStarted: bool
    var sawChunk: bool
    var separatorOwed: bool
    ghost var fed: string

    /** As for `TokenBuffer`; besides, a comma is only owed inside the array. */
    ghost predicate Valid()
      reads this
    {
      (sawChunk <==> fed != []) && (!arrayStarted ==> !separatorOwed)
    }

    function State(): SafePending
      reads this
    {
      SafePending(buffer, arrayStarted, sawChunk, separatorOwed)
    }

    constructor (decoder: Decoder)
      ensures Valid() && fed == []
      ensures this.decoder == decoder && State() == SafePending([], false, false, false)
    {
      this.decoder := decoder;
      buffer, arrayStarted, sawChunk, separatorOwed := [], false, false, false;
      fed := [];
    }

    /** The corrected `feed(chunk)`. */
    method Feed(chunk: string) returns (parsed: seq<Value>)
      requires Valid()
      modifies this
      ensures SafeFed(State(), parsed) == SafeFeed(decoder, old(State()), chunk)
      ensures Valid() && fed == old(fed) + chunk
    {
      ghost var st := State();
      parsed := [];
      if chunk == [] {
        assert old(fed) + chunk == old(fed);
        return;
      }
      sawChunk := true;
      buffer := buffer + chunk;
      fed := fed + chunk;
      ghost var text := buffer;
      if !arrayStarted {
        var startIdx := FindChar(buffer, '[');
        if startIdx == -1 {
          SafeFeedBeforeOpen(decoder, st, chunk, text);
          return;
        }
        SafeFeedOpening(decoder, st, chunk, text, startIdx);
        arrayStarted := true;
        separatorOwed := false;
        buffer := buffer[startIdx + 1..];
      } else {
        SafeFeedWhenOpen(decoder, st, chunk, text);
      }
      ghost var want := SafeDrain(decoder, buffer, separatorOwed);
      assert SafeFeed(decoder, st, chunk) == SafeFinish(want);
      parsed := DrainBuffer();
      assert SafePass(buffer, separatorOwed, !arrayStarted, parsed) == want;
    }

    /** The corrected loop: it ends where `SafeDrain` ends. */
    method DrainBuffer() returns (parsed: seq<Value>)
      requires arrayStarted
      modifies this`buffer, this`arrayStarted, this`separatorOwed
      ensures SafePass(buffer, separatorOwed, !arrayStarted, parsed) ==
        SafeDrain(decoder, old(buffer), old(separatorOwed))
    {
      var b, open, owed := buffer, true, separatorOwed;
      parsed := [];
      SafePrependNothing(SafeDrain(decoder, b, owed));
      while true
        invariant SafeDrain(decoder, old(buffer), old(separatorOwed)) ==
          SafePrepend(parsed, SafeDrain(decoder, b, owed))
        decreases |b|
      {
        SafeDrainStripped(decoder, b, owed);
        b := LStrip(b);
        SafeDrainStops(decoder, b, owed);
        if b == [] {
          break;
        }
        if b[0] == ']' {
          b := b[1..];
          open := false;
          owed := false;
          break;
        }
        if owed && b[0] == ',' {
          b := b[1..];
          owed := false;
          continue;
        }
        var r := decoder(b);
        if r.None? {
          break;
        }
        var (obj, offset) := r.value;
        SafePrependAppend(parsed, obj, SafeDrain(decoder, b[offset..], true));
        parsed := parsed + [obj];
        b := b[offset..];
        owed := true;
      }
      SafePrependNothing(SafePass(b, owed, !open, parsed));
      buffer, arrayStarted, separatorOwed := b, open, owed;
    }

    /** `saw_content()`, unchanged by the correction: the same method as
        `TokenBuffer.SawContent`, over this class's own fields. */
    method SawContent() returns (saw: bool)
      requires Valid()
      ensures saw <==> fed != []
    {
      saw := sawChunk;
    }
  }
}
