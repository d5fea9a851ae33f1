/** A concrete decoder for the JSON literals `true`, `false` and `null`, and
    the delta boundary that the source's buffer does not survive: a comma
    that arrives at the start of a later delta. */
module CommaSplit {
  import opened Json
  import opened Text
  import opened Buffer
  import opened Split

  /** `raw_decode` restricted to the three literal names: the value and the
      offset just past it, or `None` for anything else. */
  function LiteralDecode(s: string): (r: Option<(Value, nat)>)
    ensures r.Some? ==> 0 < r.value.1 <= |s| && StartsWith(s, s[..r.value.1])
    ensures r.Some? <==> StartsWith(s, "true") || StartsWith(s, "false") || StartsWith(s, "null")
  {
    if StartsWith(s, "true") then Some((Bool(true), 4))
    else if StartsWith(s, "false") then Some((Bool(false), 5))
    else if StartsWith(s, "null") then Some((Null, 4))
    else None
  }

  const Literals: Decoder := LiteralDecode

  /** A literal at the front of `s` is still at the front of `s + t`. */
  lemma StartsWithAppend(s: string, t: string, p: string)
    requires StartsWith(s, p)
    ensures StartsWith(s + t, p) && (s + t)[0..|p|] == p
  {
    assert (s + t)[..|p|] == s[..|p|];
  }

  /** More text after a literal never changes how it decodes. */
  lemma LiteralExtends(s: string, t: string)
    requires LiteralDecode(s).Some?
    ensures LiteralDecode(s + t) == LiteralDecode(s)
  {
    assert s[0] == (s + t)[0];
    if StartsWith(s, "true") {
      StartsWithAppend(s, t, "true");
    } else if StartsWith(s, "false") {
      StartsWithAppend(s, t, "false");
      assert (s + t)[0] == 'f';
    } else {
      StartsWithAppend(s, t, "null");
      assert (s + t)[0] == 'n';
    }
  }

  /** The literal decoder meets both hypotheses of the split theorem. */
  lemma LiteralsWellBehaved()
    ensures Monotone(Literals) && Consistent(Literals)
  {
    forall s: string, t: string | Literals(s).Some?
      ensures Literals(s + t).Some? && Literals(s + t) == Literals(s)
    {
      LiteralExtends(s, t);
    }
  }

  const Fresh: Pending := Pending([], false, false)

  /** The two deltas of the counterexample, the text they make together, and
      the pieces that are left of it along the way. */
  const OneTrue: string := "true"
  const Closing: string := "]"
  const LastTrue: string := OneTrue + Closing
  const SecondDelta: string := "," + LastTrue
  const BothTrue: string := OneTrue + SecondDelta
  const FirstDelta: string := "[" + OneTrue
  const WholeText: string := "[" + BothTrue

  lemma DecodeTrue(rest: string)
    ensures Literals(OneTrue + rest) == Some((Bool(true), 4))
  {
    StartsWithAppend(OneTrue, rest, "true");
  }

  /** Text that starts with a literal starts with its first letter. */
  lemma FirstLetter(s: string, p: string)
    requires p != [] && StartsWith(s, p)
    ensures s[0] == p[0]
  {
    assert s[..|p|][0] == s[0];
  }

  /** `raw_decode` fails on text that starts with a comma. */
  ghost predicate RejectsComma(dec: Decoder) {
    forall s: string :: s != [] && s[0] == ',' ==> dec(s).None?
  }

  /** The literal decoder, like `raw_decode`, rejects a leading comma. */
  lemma LiteralsRejectComma()
    ensures RejectsComma(Literals)
  {
    forall s: string | s != [] && s[0] == ','
      ensures Literals(s).None?
    {
      if StartsWith(s, "true") {
        FirstLetter(s, "true");
      } else if StartsWith(s, "false") {
        FirstLetter(s, "false");
      } else if StartsWith(s, "null") {
        FirstLetter(s, "null");
      }
    }
  }

  /** None of the characters the counterexample starts a buffer with is
      whitespace. */
  lemma NotSpaces()
    ensures !IsSpace('t') && !IsSpace(',') && !IsSpace(']')
  {
  }

  /** Text that starts with no whitespace is left alone by `lstrip`. */
  lemma Unstripped(s: string)
    requires s != [] && !IsSpace(s[0])
    ensures LStrip(s) == s
  {
  }

  /** Dropping a known first part. */
  lemma DropFront(p: string, x: string)
    ensures (p + x)[|p|..] == x && [] + x == x && x + [] == x
  {
  }

  lemma TrueUnstripped(rest: string)
    ensures LStrip(OneTrue + rest) == OneTrue + rest
  {
    NotSpaces();
    Unstripped(OneTrue + rest);
  }

  /** The loop over `true`: one element, the array still open. */
  lemma DrainTrue()
    ensures Drain(Literals, OneTrue) == Pass([], false, [Bool(true)])
  {
    TrueUnstripped([]);
    DecodeTrue([]);
    DropFront(OneTrue, []);
    DrainOnValue(Literals, OneTrue);
    assert AfterValue(OneTrue, 4) == [];
    DrainStops(Literals, []);
  }

  /** The loop over text that starts with a comma: stuck at once. */
  lemma DrainComma(dec: Decoder, rest: string)
    requires RejectsComma(dec)
    ensures Drain(dec, "," + rest) == Pass("," + rest, false, [])
  {
    NotSpaces();
    Unstripped("," + rest);
    DrainStops(dec, "," + rest);
  }

  /** The loop over `]`. */
  lemma DrainClosing()
    ensures Drain(Literals, Closing) == Pass([], true, [])
  {
    NotSpaces();
    Unstripped(Closing);
    DrainStops(Literals, Closing);
  }

  /** What is left after the first `true` of `true]` and of `true,true]`. */
  lemma AfterTrue()
    ensures AfterValue(LastTrue, 4) == Closing
    ensures AfterValue(BothTrue, 4) == LastTrue
  {
    NotSpaces();
    DropFront(OneTrue, Closing);
    Unstripped(Closing);
    DropFront(OneTrue, SecondDelta);
    Unstripped(SecondDelta);
    DropFront(",", LastTrue);
  }

  /** The loop over `true]`. */
  lemma DrainLastTrue()
    ensures Drain(Literals, LastTrue) == Pass([], true, [Bool(true)])
  {
    DrainClosing();
    TrueUnstripped(Closing);
    DecodeTrue(Closing);
    DrainOnValue(Literals, LastTrue);
    AfterTrue();
  }

  /** The loop over `true,true]`. */
  lemma DrainBothTrue()
    ensures Drain(Literals, BothTrue) == Pass([], true, [Bool(true), Bool(true)])
  {
    DrainLastTrue();
    TrueUnstripped(SecondDelta);
    DecodeTrue(SecondDelta);
    DrainOnValue(Literals, BothTrue);
    AfterTrue();
  }

  /** The corrected loop over `true`: one element, a comma owed. */
  lemma SafeDrainTrue()
    ensures SafeDrain(Literals, OneTrue, false) == SafePass([], true, false, [Bool(true)])
  {
    TrueUnstripped([]);
    DecodeTrue([]);
    DropFront(OneTrue, []);
    SafeDrainStops(Literals, OneTrue, false);
    SafeDrainStops(Literals, [], true);
  }

  /** The corrected loop over `true]`. */
  lemma SafeDrainLastTrue()
    ensures SafeDrain(Literals, LastTrue, false) == SafePass([], false, true, [Bool(true)])
  {
    NotSpaces();
    Unstripped(Closing);
    SafeDrainStops(Literals, Closing, true);
    TrueUnstripped(Closing);
    DecodeTrue(Closing);
    DropFront(OneTrue, Closing);
    SafeDrainStops(Literals, LastTrue, false);
  }

  /** The corrected loop over `,true]` with a comma owed drops the comma. */
  lemma SafeDrainSecond()
    ensures SafeDrain(Literals, SecondDelta, true) == SafePass([], false, true, [Bool(true)])
  {
    SafeDrainLastTrue();
    NotSpaces();
    Unstripped(SecondDelta);
    SafeDrainStops(Literals, SecondDelta, true);
    DropFront(",", LastTrue);
  }

  /** `feed("[true")` on a fresh buffer. */
  lemma FeedFirst()
    ensures FeedSpec(Literals, Fresh, FirstDelta) == Fed(Pending([], true, true), [Bool(true)])
  {
    DropFront([], FirstDelta);
    DropFront("[", OneTrue);
    FeedOpening(Literals, Fresh, FirstDelta, FirstDelta, 0);
    DrainTrue();
  }

  /** `feed(",true]")` after it. */
  lemma FeedSecond()
    ensures FeedSpec(Literals, Pending([], true, true), SecondDelta) == Fed(Pending(SecondDelta, true, true), [])
  {
    DropFront([], SecondDelta);
    FeedWhenOpen(Literals, Pending([], true, true), SecondDelta, SecondDelta);
    LiteralsRejectComma();
    DrainComma(Literals, LastTrue);
  }

  /** `feed("[true,true]")` on a fresh buffer. */
  lemma FeedWhole()
    ensures FeedSpec(Literals, Fresh, WholeText) == Fed(Pending([], false, true), [Bool(true), Bool(true)])
  {
    DropFront([], WholeText);
    DropFront("[", BothTrue);
    FeedOpening(Literals, Fresh, WholeText, WholeText, 0);
    DrainBothTrue();
  }

  /** The source's buffer fed `[true` and then `,true]` returns one element
      and is left holding `,true]` with the array still open, although the
      same text fed whole gives both elements and closes the array. */
  lemma AsWrittenLosesComma()
    ensures var f1 := FeedSpec(Literals, Fresh, FirstDelta);
      var f2 := FeedSpec(Literals, f1.state, SecondDelta);
      f1.values + f2.values == [Bool(true)] && f2.state == Pending(SecondDelta, true, true)
    ensures FeedSpec(Literals, Fresh, WholeText) ==
      Fed(Pending([], false, true), [Bool(true), Bool(true)])
  {
    FeedFirst();
    FeedSecond();
    FeedWhole();
    assert [Bool(true)] + [] == [Bool(true)];
  }

  /** The corrected `feed("[true")` on a fresh buffer. */
  lemma SafeFeedFirst()
    ensures SafeFeed(Literals, SafePending([], false, false, false), FirstDelta) ==
      SafeFed(SafePending([], true, true, true), [Bool(true)])
  {
    DropFront([], FirstDelta);
    DropFront("[", OneTrue);
    SafeFeedOpening(Literals, SafePending([], false, false, false), FirstDelta, FirstDelta, 0);
    SafeDrainTrue();
  }

  /** The corrected `feed(",true]")` after it. */
  lemma SafeFeedSecond()
    ensures SafeFeed(Literals, SafePending([], true, true, true), SecondDelta) ==
      SafeFed(SafePending([], false, true, false), [Bool(true)])
  {
    DropFront([], SecondDelta);
    SafeFeedWhenOpen(Literals, SafePending([], true, true, true), SecondDelta, SecondDelta);
    SafeDrainSecond();
  }

  /** The corrected buffer fed the same two deltas returns both elements and
      closes the array. */
  lemma CorrectedKeepsComma()
    ensures var s1 := SafeFeed(Literals, SafePending([], false, false, false), FirstDelta);
      var s2 := SafeFeed(Literals, s1.state, SecondDelta);
      s1.values + s2.values == [Bool(true), Bool(true)] && !s2.state.open
  {
    SafeFeedFirst();
    SafeFeedSecond();
  }

  /** The source's buffer fed the deltas one after another: the state it is
      left in and every element returned along the way, in order. */
  function FeedEach(dec: Decoder, st: Pending, deltas: seq<string>): Fed
    decreases |deltas|
  {
    if deltas == [] then Fed(st, [])
    else
      var f := FeedSpec(dec, st, deltas[0]);
      var g := FeedEach(dec, f.state, deltas[1..]);
      Fed(g.state, f.values + g.values)
  }

  /** Once stuck on a leading comma with the array open, the source's buffer
      returns nothing for the rest of the stream, whatever deltas arrive, for
      any decoder that, like `raw_decode`, rejects a leading comma: it only
      piles the deltas up behind the comma. The state the counterexample
      leaves, `Pending(SecondDelta, true, true)`, is such a state. */
  lemma {:induction false} AsWrittenStaysStuck(dec: Decoder, x: string, saw: bool, deltas: seq<string>)
    requires RejectsComma(dec)
    ensures FeedEach(dec, Pending("," + x, true, saw), deltas) ==
      Fed(Pending("," + (x + Concat(deltas)), true, saw || Concat(deltas) != []), [])
    decreases |deltas|
  {
    if deltas == [] {
      assert x + [] == x;
    } else {
      var st := Pending("," + x, true, saw);
      var t, rest := deltas[0], deltas[1..];
      var f := FeedSpec(dec, st, t);
      assert f.values == [] by {
        if t != [] { StuckOnMore(dec, x, saw, t); }
      }
      var x', saw' := x + t, saw || t != [];
      assert f.state == Pending("," + x', true, saw') by {
        if t != [] { StuckOnMore(dec, x, saw, t); } else { assert x + t == x; }
      }
      AsWrittenStaysStuck(dec, x', saw', rest);
      FeedEachStep(dec, st, deltas);
      ConcatStep(x, t, rest);
    }
  }

  lemma FeedEachStep(dec: Decoder, st: Pending, deltas: seq<string>)
    requires deltas != []
    ensures var f := FeedSpec(dec, st, deltas[0]);
      var g := FeedEach(dec, f.state, deltas[1..]);
      FeedEach(dec, st, deltas) == Fed(g.state, f.values + g.values)
  {
  }

  /** The text piled up behind the comma, one delta at a time. */
  lemma ConcatStep(x: string, t: string, rest: seq<string>)
    ensures Concat([t] + rest) == t + Concat(rest)
    ensures (x + t) + Concat(rest) == x + Concat([t] + rest)
    ensures Concat([t] + rest) != [] <==> t != [] || Concat(rest) != []
  {
    assert ([t] + rest)[1..] == rest;
  }

  /** One more non-empty delta behind a leading comma. */
  lemma StuckOnMore(dec: Decoder, x: string, saw: bool, t: string)
    requires t != [] && RejectsComma(dec)
    ensures FeedSpec(dec, Pending("," + x, true, saw), t) == Fed(Pending("," + (x + t), true, true), [])
  {
    var rest := x + t;
    DrainComma(dec, rest);
    assert ("," + x) + t == "," + rest;
    FeedWhenOpen(dec, Pending("," + x, true, saw), t, "," + rest);
  }
}
