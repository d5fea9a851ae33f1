/** How the corrected buffer behaves when the same text arrives cut into
    deltas at arbitrary places: it returns the same elements, in the same
    order, and is left in the same state as when the text arrives whole,
    provided the decoder is `Monotone` and `Consistent`, no element is a bare
    number, and no `[` follows the array's closing `]`. */
module Split {
  import opened Json
  import opened Text
  import opened Buffer

  /** No element is a bare number (whose text could still grow). */
  predicate AllDelimited(vs: seq<Value>) {
    forall i | 0 <= i < |vs| :: SelfDelimiting(vs[i])
  }

  lemma AllDelimitedTail(vs: seq<Value>, ws: seq<Value>)
    requires AllDelimited(vs + ws)
    ensures AllDelimited(ws)
  {
    forall i | 0 <= i < |ws|
      ensures SelfDelimiting(ws[i])
    {
      assert ws[i] == (vs + ws)[|vs| + i];
    }
  }

  /** What `SafeDrainSplit` states about `x` and `y`. */
  ghost predicate SplitsAt(dec: Decoder, x: string, y: string, owed: bool) {
    var d := SafeDrain(dec, x, owed);
    SafeDrain(dec, x + y, owed) ==
      if d.closed then SafePass(d.rest + y, false, true, d.values)
      else SafePrepend(d.values, SafeDrain(dec, d.rest + y, d.owed))
  }

  /** The corrected loop over `x + y` is the loop over `x` followed by the
      loop over what `x` left buffered with `y` after it; after a closing `]`
      the rest of `y` simply stays buffered. */
  lemma {:induction false} SafeDrainSplit(dec: Decoder, x: string, y: string, owed: bool)
    requires Monotone(dec) && Consistent(dec)
    requires AllDelimited(SafeDrain(dec, x + y, owed).values)
    ensures SplitsAt(dec, x, y, owed)
    decreases |x|, 2
  {
    var b := LStrip(x);
    LStripAppend(x, y);
    SafeDrainStripped(dec, x + y, owed);
    SafeDrainStripped(dec, x, owed);
    LStripIdempotent(x);
    if b == [] {
      assert [] + y == y;
      SafeDrainStripped(dec, y, owed);
      SafePrependNothing(SafeDrain(dec, y, owed));
    } else {
      assert LStrip(x + y) == b + y;
      SafeDrainSplitStripped(dec, b, y, owed);
    }
  }

  /** `SafeDrainSplit` for an `x` that starts with no whitespace. */
  lemma {:induction false} SafeDrainSplitStripped(dec: Decoder, b: string, y: string, owed: bool)
    requires Monotone(dec) && Consistent(dec)
    requires b != [] && LStrip(b) == b
    requires AllDelimited(SafeDrain(dec, b + y, owed).values)
    ensures SplitsAt(dec, b, y, owed)
    decreases |b|, 1
  {
    var joined := b + y;
    if b[0] == ']' || (owed && b[0] == ',') {
      LStripAppend(b, y);
      assert joined[0] == b[0];
      assert joined[1..] == b[1..] + y;
      SafeDrainStops(dec, b, owed);
      SafeDrainStops(dec, joined, owed);
      if b[0] != ']' {
        SafeDrainSplit(dec, b[1..], y, false);
      }
    } else if dec(b).None? {
      SafeDrainStops(dec, b, owed);
      SafePrependNothing(SafeDrain(dec, joined, owed));
    } else {
      SafeDrainSplitValue(dec, b, y, owed);
    }
  }

  /** `SafeDrainSplit` for an `x` that starts with a decodable value. */
  lemma {:induction false} SafeDrainSplitValue(dec: Decoder, b: string, y: string, owed: bool)
    requires Monotone(dec) && Consistent(dec)
    requires b != [] && LStrip(b) == b && b[0] != ']' && !(owed && b[0] == ',') && dec(b).Some?
    requires AllDelimited(SafeDrain(dec, b + y, owed).values)
    ensures SplitsAt(dec, b, y, owed)
    decreases |b|, 0
  {
    var joined := b + y;
    LStripAppend(b, y);
    assert joined[0] == b[0];
    var (v, off) := dec(b).value;
    assert dec(joined) == dec(b) by {
      assert dec(joined).Some?;
      var w := dec(joined).value.0;
      SafeDrainStops(dec, joined, owed);
      assert SafeDrain(dec, joined, owed).values[0] == w;
    }
    SafeDrainStops(dec, b, owed);
    SafeDrainStops(dec, joined, owed);
    assert joined[off..] == b[off..] + y;
    AllDelimitedTail([v], SafeDrain(dec, b[off..] + y, true).values);
    SafeDrainSplit(dec, b[off..], y, true);
    var d2 := SafeDrain(dec, b[off..], true);
    if !d2.closed {
      SafePrependAppendSeq([v], d2.values, SafeDrain(dec, d2.rest + y, d2.owed));
    }
  }

  /** The conditions under which cutting the text cannot matter, stated on
      the outcome of feeding `text` whole from `st`: no bare-number element,
      and once the array is closed no `[` is left in the buffer. */
  ghost predicate Clean(dec: Decoder, st: SafePending, text: string) {
    var f := SafeFeed(dec, st, text);
    AllDelimited(f.values) && (!f.state.open ==> FindChar(f.state.text, '[') < 0)
  }

  /** `Clean` for the loop alone: no bare-number element, and after a
      closing `]` no `[` left buffered. */
  ghost predicate DrainClean(dec: Decoder, s: string, owed: bool) {
    var d := SafeDrain(dec, s, owed);
    AllDelimited(d.values) && (d.closed ==> FindChar(d.rest, '[') < 0)
  }

  /** The loop over `x + b` as one call of `feed` after the loop over `x`. */
  lemma DrainThenFeed(dec: Decoder, x: string, b: string, owed: bool)
    requires Monotone(dec) && Consistent(dec) && b != [] && DrainClean(dec, x + b, owed)
    ensures var f1 := SafeFinish(SafeDrain(dec, x, owed));
      var f2 := SafeFeed(dec, f1.state, b);
      SafeFinish(SafeDrain(dec, x + b, owed)) == SafeFed(f2.state, f1.values + f2.values)
  {
    SafeDrainSplit(dec, x, b, owed);
    var d := SafeDrain(dec, x, owed);
    if d.closed {
      assert d.values + [] == d.values;
    }
  }

  /** What `SafeFeedSplit` states about `a` and `b`. */
  ghost predicate FeedsAt(dec: Decoder, st: SafePending, a: string, b: string) {
    var f1 := SafeFeed(dec, st, a);
    var f2 := SafeFeed(dec, f1.state, b);
    SafeFeed(dec, st, a + b) == SafeFed(f2.state, f1.values + f2.values)
  }

  /** Feeding `a` and then `b` is feeding `a + b`. */
  lemma SafeFeedSplit(dec: Decoder, st: SafePending, a: string, b: string)
    requires Monotone(dec) && Consistent(dec) && Clean(dec, st, a + b)
    ensures FeedsAt(dec, st, a, b)
  {
    if a == [] {
      assert a + b == b;
      assert [] + SafeFeed(dec, st, b).values == SafeFeed(dec, st, b).values;
    } else if b == [] {
      assert a + b == a;
      assert SafeFeed(dec, st, a).values + [] == SafeFeed(dec, st, a).values;
    } else if st.open {
      SafeFeedWhenOpen(dec, st, a + b, st.text + (a + b));
      SplitOpen(dec, st, a, b);
    } else if 0 <= FindChar(st.text + a, '[') {
      var i := FindChar(st.text + a, '[');
      OpeningJoined(dec, st, a, b, i);
      SplitOpening(dec, st, a, b, i);
    } else {
      SplitClosed(dec, st, a, b);
    }
  }

  /** `SafeFeedSplit` when feeding `a` and feeding `a + b` both come down to
      the loop, over `x` and over `x + b`. */
  lemma FeedsThrough(dec: Decoder, st: SafePending, a: string, b: string, x: string, owed: bool)
    requires Monotone(dec) && Consistent(dec) && b != [] && DrainClean(dec, x + b, owed)
    requires SafeFeed(dec, st, a) == SafeFinish(SafeDrain(dec, x, owed))
    requires SafeFeed(dec, st, a + b) == SafeFinish(SafeDrain(dec, x + b, owed))
    ensures FeedsAt(dec, st, a, b)
  {
    DrainThenFeed(dec, x, b, owed);
  }

  /** `SafeFeedSplit` once the array is open. */
  lemma SplitOpen(dec: Decoder, st: SafePending, a: string, b: string)
    requires Monotone(dec) && Consistent(dec) && st.open && a != [] && b != []
    requires DrainClean(dec, st.text + (a + b), st.owed)
    ensures FeedsAt(dec, st, a, b)
  {
    var text := st.text + a;
    assert st.text + (a + b) == text + b;
    SafeFeedWhenOpen(dec, st, a, text);
    SafeFeedWhenOpen(dec, st, a + b, text + b);
    FeedsThrough(dec, st, a, b, text, st.owed);
  }

  /** `SafeFeedSplit` when `a` brings the opening `[`, at index `i`. */
  lemma SplitOpening(dec: Decoder, st: SafePending, a: string, b: string, i: int)
    requires Monotone(dec) && Consistent(dec) && !st.open && a != [] && b != []
    requires i == FindChar(st.text + a, '[') && 0 <= i
    requires DrainClean(dec, (st.text + a)[i + 1..] + b, false)
    ensures FeedsAt(dec, st, a, b)
  {
    SafeFeedOpening(dec, st, a, st.text + a, i);
    OpeningJoined(dec, st, a, b, i);
    FeedsThrough(dec, st, a, b, (st.text + a)[i + 1..], false);
  }

  /** Feeding `a + b` when `a` brings the opening `[`, at index `i`. */
  lemma OpeningJoined(dec: Decoder, st: SafePending, a: string, b: string, i: int)
    requires !st.open && a != []
    requires i == FindChar(st.text + a, '[') && 0 <= i
    ensures SafeFeed(dec, st, a + b) == SafeFinish(SafeDrain(dec, (st.text + a)[i + 1..] + b, false))
  {
    var text := st.text + a;
    assert st.text + (a + b) == text + b;
    FindCharAppend(text, b, '[');
    assert (text + b)[i + 1..] == text[i + 1..] + b;
    SafeFeedOpening(dec, st, a + b, text + b, i);
  }

  /** `SafeFeedSplit` when `a` brings no `[` and the array is not open. */
  lemma SplitClosed(dec: Decoder, st: SafePending, a: string, b: string)
    requires !st.open && a != [] && b != [] && FindChar(st.text + a, '[') < 0
    ensures FeedsAt(dec, st, a, b)
  {
    var text := st.text + a;
    var st2 := SafePending(text, false, true, st.owed);
    var whole := text + b;
    assert st.text + (a + b) == whole;
    SafeFeedBeforeOpen(dec, st, a, text);
    var i := FindChar(whole, '[');
    if i < 0 {
      SafeFeedBeforeOpen(dec, st, a + b, whole);
      SafeFeedBeforeOpen(dec, st2, b, whole);
    } else {
      SafeFeedOpening(dec, st, a + b, whole, i);
      SafeFeedOpening(dec, st2, b, whole, i);
    }
    var f2 := SafeFeed(dec, st2, b);
    assert [] + f2.values == f2.values;
  }

  /** The text of all deltas, in order. */
  function Concat(chunks: seq<string>): string {
    if chunks == [] then [] else chunks[0] + Concat(chunks[1..])
  }

  /** Feeding the deltas one after the other: the final state and every
      element returned along the way, in order. */
  function FeedAll(dec: Decoder, st: SafePending, chunks: seq<string>): SafeFed
    decreases |chunks|
  {
    if chunks == [] then SafeFed(st, [])
    else
      var f := SafeFeed(dec, st, chunks[0]);
      var g := FeedAll(dec, f.state, chunks[1..]);
      SafeFed(g.state, f.values + g.values)
  }

  /** Feeding the deltas `a` and then the deltas `b`. */
  lemma {:induction false} FeedAllAppend(dec: Decoder, st: SafePending, a: seq<string>, b: seq<string>)
    ensures var f := FeedAll(dec, st, a);
      var g := FeedAll(dec, f.state, b);
      FeedAll(dec, st, a + b) == SafeFed(g.state, f.values + g.values)
    decreases |a|
  {
    if a == [] {
      assert a + b == b;
      assert [] + FeedAll(dec, st, b).values == FeedAll(dec, st, b).values;
    } else {
      assert (a + b)[0] == a[0] && (a + b)[1..] == a[1..] + b;
      var f0 := SafeFeed(dec, st, a[0]);
      FeedAllAppend(dec, f0.state, a[1..], b);
      var f1 := FeedAll(dec, f0.state, a[1..]);
      var g := FeedAll(dec, f1.state, b);
      assert f0.values + (f1.values + g.values) == (f0.values + f1.values) + g.values;
    }
  }

  /** However the text is cut into deltas, the corrected buffer returns the
      same elements in the same order and ends in the same state as when the
      text arrives in one delta. */
  lemma {:induction false} SplitInvariance(dec: Decoder, st: SafePending, chunks: seq<string>)
    requires Monotone(dec) && Consistent(dec) && Clean(dec, st, Concat(chunks))
    ensures FeedAll(dec, st, chunks) == SafeFeed(dec, st, Concat(chunks))
    decreases |chunks|
  {
    if chunks == [] {
    } else {
      var rest := Concat(chunks[1..]);
      SafeFeedSplit(dec, st, chunks[0], rest);
      var f1 := SafeFeed(dec, st, chunks[0]);
      var f2 := SafeFeed(dec, f1.state, rest);
      AllDelimitedTail(f1.values, f2.values);
      SplitInvariance(dec, f1.state, chunks[1..]);
    }
  }

  /** Hence, from a fresh buffer, the corrected buffer fed any cut of the text
      returns exactly what the source's buffer returns for the whole text. */
  lemma ChunkedMatchesWhole(dec: Decoder, chunks: seq<string>)
    requires Monotone(dec) && Consistent(dec)
    requires var w := FeedSpec(dec, Pending([], false, false), Concat(chunks));
      AllDelimited(w.values) && (!w.state.open ==> '[' !in w.state.text)
    ensures FeedAll(dec, SafePending([], false, false, false), chunks).values ==
      FeedSpec(dec, Pending([], false, false), Concat(chunks)).values
  {
    var w := FeedSpec(dec, Pending([], false, false), Concat(chunks));
    FindCharFirst(w.state.text, '[');
    SafeFeedAgrees(dec, Pending([], false, false), Concat(chunks));
    SplitInvariance(dec, SafePending([], false, false, false), chunks);
  }
}
