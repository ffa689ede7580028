/** The encoder of playback: a normalised text becomes the ordered list of
    audio segments (tones and silences) and the ordered list of lamp
    events, driven by a running time cursor. All times are in units of
    5 ms, in which every duration of the program is a whole number. */
module Timeline {
  import opened Alphabet

  /** 0.07 s */
  const DotUnits: nat := 14
  /** 0.2 s */
  const DashUnits: nat := 40
  /** half a dot, 0.035 s */
  const SignalGapUnits: nat := 7
  /** two and a half dots, 0.175 s */
  const CharGapUnits: nat := 35
  /** six dots, 0.42 s */
  const WordGapUnits: nat := 84

  /** One entry of the audio sequence: a tone or a silence of some length. */
  datatype Segment = Tone(units: nat) | Silence(units: nat)

  datatype Lamp = On | Off

  /** A lamp event: at `time` units after the start the lamp turns on or off. */
  datatype TimingEvent = TimingEvent(time: nat, lamp: Lamp)

  /** The tone length of a signal. */
  function SignalUnits(s: char): (u: nat)
    requires IsSignal(s)
  {
    if s == '.' then DotUnits else DashUnits
  }

  /** The segments the encoder emits for signal `i` of a code: its tone, and
      a signal gap unless it is the last signal. */
  function SignalSegments(code: string, i: nat): seq<Segment>
    requires i < |code| && AllSignals(code)
  {
    [Tone(SignalUnits(code[i]))] + (if i < |code| - 1 then [Silence(SignalGapUnits)] else [])
  }

  /** The segments of the first `i` signals of a code. */
  function CodeSegments(code: string, i: nat): seq<Segment>
    requires i <= |code| && AllSignals(code)
  {
    if i == 0 then [] else CodeSegments(code, i - 1) + SignalSegments(code, i - 1)
  }

  /** The segments of one character: a word gap for the space; nothing for a
      character with no entry (or an empty one); otherwise the tones of its
      code and then one character gap. */
  function CharSegments(c: char): seq<Segment> {
    if c == ' ' then [Silence(WordGapUnits)]
    else
      var entry := Lookup(c);
      if entry.None? || entry.value == "" then []
      else
        TableWellFormed(c);
        CodeSegments(entry.value, |entry.value|) + [Silence(CharGapUnits)]
  }

  /** The audio sequence of a normalised text. */
  function Segments(s: string): seq<Segment> {
    if s == [] then [] else Segments(s[..|s| - 1]) + CharSegments(s[|s| - 1])
  }

  /** The sum of the lengths of some segments. */
  function Duration(segs: seq<Segment>): nat {
    if segs == [] then 0 else segs[0].units + Duration(segs[1..])
  }

  /** The lamp events of a segment list played from time `t`, derived from
      the segments alone: each tone turns the lamp on at its start and off at
      its end; silences only move the time on. */
  function EventsOf(segs: seq<Segment>, t: nat): seq<TimingEvent> {
    if segs == [] then []
    else
      match segs[0]
      case Tone(d) => [TimingEvent(t, On), TimingEvent(t + d, Off)] + EventsOf(segs[1..], t + d)
      case Silence(d) => EventsOf(segs[1..], t + d)
  }

  /** The lengths of the tone segments, in order. */
  function ToneUnits(segs: seq<Segment>): seq<nat> {
    if segs == [] then []
    else (if segs[0].Tone? then [segs[0].units] else []) + ToneUnits(segs[1..])
  }

  /** The lengths of the tones of a string of signals. */
  function SignalUnitsOf(code: string): (r: seq<nat>)
    requires AllSignals(code)
    ensures |r| == |code|
  {
    seq(|code|, i requires 0 <= i < |code| => SignalUnits(code[i]))
  }

  // ----- append laws -----

  lemma {:induction false} DurationAppend(a: seq<Segment>, b: seq<Segment>)
    ensures Duration(a + b) == Duration(a) + Duration(b)
  {
    if a == [] {
      assert a + b == b;
    } else {
      assert (a + b)[1..] == a[1..] + b;
      DurationAppend(a[1..], b);
    }
  }

  /** Events of a concatenation: the second part is played from where the
      first part ends. */
  lemma {:induction false} EventsAppend(a: seq<Segment>, b: seq<Segment>, t: nat)
    ensures EventsOf(a + b, t) == EventsOf(a, t) + EventsOf(b, t + Duration(a))
  {
    if a == [] {
      assert a + b == b;
    } else {
      assert (a + b)[1..] == a[1..] + b;
      EventsAppend(a[1..], b, t + a[0].units);
    }
  }

  lemma {:induction false} ToneUnitsAppend(a: seq<Segment>, b: seq<Segment>)
    ensures ToneUnits(a + b) == ToneUnits(a) + ToneUnits(b)
  {
    if a == [] {
      assert a + b == b;
    } else {
      var head := if a[0].Tone? then [a[0].units] else [];
      calc {
        ToneUnits(a + b);
      == { assert (a + b)[0] == a[0]; assert (a + b)[1..] == a[1..] + b; }
        head + ToneUnits(a[1..] + b);
      == { ToneUnitsAppend(a[1..], b); }
        head + (ToneUnits(a[1..]) + ToneUnits(b));
      }
    }
  }

  /** The encoder is a homomorphism on texts. */
  lemma {:induction false} SegmentsAppend(a: string, b: string)
    ensures Segments(a + b) == Segments(a) + Segments(b)
  {
    if b == [] {
      assert a + b == a;
    } else {
      var b' := b[..|b| - 1];
      var c := b[|b| - 1];
      calc {
        Segments(a + b);
      == { assert (a + b)[..|a + b| - 1] == a + b'; assert (a + b)[|a + b| - 1] == c; }
        Segments(a + b') + CharSegments(c);
      == { SegmentsAppend(a, b'); }
        Segments(a) + Segments(b') + CharSegments(c);
      }
    }
  }

  lemma SegmentsChar(c: char)
    ensures Segments([c]) == CharSegments(c)
  {
    assert [c][..0] == [];
  }

  // ----- the encoder loop -----

  /** The segment- and event-building loop of playback. The audio sequence
      is the encoding of the text, the events are exactly those its segments
      imply, and the cursor ends at the total duration. */
  method BuildTimeline(input: string) returns (audio: seq<Segment>, events: seq<TimingEvent>, currentTime: nat)
    ensures audio == Segments(input)
    ensures events == EventsOf(audio, 0)
    ensures currentTime == Duration(audio)
  {
    audio, events, currentTime := [], [], 0;
    for n := 0 to |input|
      invariant audio == Segments(input[..n])
      invariant events == EventsOf(audio, 0)
      invariant currentTime == Duration(audio)
    {
      var ch := input[n];
      SegmentsStep(input, n);
      if ch == ' ' {
        Append(audio, events, currentTime, Silence(WordGapUnits));
        audio := audio + [Silence(WordGapUnits)];
        currentTime := currentTime + WordGapUnits;
        continue;
      }
      var entry := Lookup(ch);
      if entry.None? || entry.value == "" {
        continue;
      }
      TableWellFormed(ch);
      audio, events, currentTime := EmitCode(entry.value, audio, events, currentTime);
      Append(audio, events, currentTime, Silence(CharGapUnits));
      audio := audio + [Silence(CharGapUnits)];
      currentTime := currentTime + CharGapUnits;
    }
    assert input[..|input|] == input;
  }

  /** The inner loop over the signals of one character's code: each signal
      appends its tone and its on/off events, and every signal but the last
      is followed by a signal gap. */
  method EmitCode(code: string, audio0: seq<Segment>, events0: seq<TimingEvent>, time0: nat)
    returns (audio: seq<Segment>, events: seq<TimingEvent>, currentTime: nat)
    requires AllSignals(code)
    requires events0 == EventsOf(audio0, 0) && time0 == Duration(audio0)
    ensures audio == audio0 + CodeSegments(code, |code|)
    ensures events == EventsOf(audio, 0)
    ensures currentTime == Duration(audio)
  {
    audio, events, currentTime := audio0, events0, time0;
    for i := 0 to |code|
      invariant audio == audio0 + CodeSegments(code, i)
      invariant events == EventsOf(audio, 0)
      invariant currentTime == Duration(audio)
    {
      ghost var prefix := audio;
      var toneDuration := SignalUnits(code[i]);
      Append(audio, events, currentTime, Tone(toneDuration));
      audio := audio + [Tone(toneDuration)];
      events := events + [TimingEvent(currentTime, On)];
      currentTime := currentTime + toneDuration;
      events := events + [TimingEvent(currentTime, Off)];
      if i < |code| - 1 {
        Append(audio, events, currentTime, Silence(SignalGapUnits));
        audio := audio + [Silence(SignalGapUnits)];
        currentTime := currentTime + SignalGapUnits;
      }
      assert audio == prefix + SignalSegments(code, i);
      assert audio0 + CodeSegments(code, i + 1) == prefix + SignalSegments(code, i);
    }
  }

  /** One step of the outer loop: one more character of the text. */
  lemma SegmentsStep(input: string, n: nat)
    requires n < |input|
    ensures Segments(input[..n + 1]) == Segments(input[..n]) + CharSegments(input[n])
  {
    assert input[..n + 1] == input[..n] + [input[n]];
    SegmentsAppend(input[..n], [input[n]]);
    SegmentsChar(input[n]);
  }

  /** One step of the loop: appending a segment extends the events by that
      segment's events at the current time and moves the time on. */
  lemma Append(audio: seq<Segment>, events: seq<TimingEvent>, now: nat, seg: Segment)
    requires events == EventsOf(audio, 0) && now == Duration(audio)
    ensures Duration(audio + [seg]) == now + seg.units
    ensures EventsOf(audio + [seg], 0) == events +
      (if seg.Tone? then [TimingEvent(now, On), TimingEvent(now + seg.units, Off)] else [])
  {
    DurationAppend(audio, [seg]);
    EventsAppend(audio, [seg], 0);
  }

  // ----- properties of the encoding -----

  /** A character with no table entry contributes no segment, so no event
      and no gap: removing it changes nothing. */
  lemma UnknownSkipped(a: string, c: char, b: string)
    requires !Known(c)
    ensures Segments(a + [c] + b) == Segments(a + b)
    ensures EventsOf(Segments(a + [c] + b), 0) == EventsOf(Segments(a + b), 0)
  {
    calc {
      Segments(a + [c] + b);
    == { SegmentsAppend(a + [c], b); }
      Segments(a + [c]) + Segments(b);
    == { SegmentsAppend(a, [c]); SegmentsChar(c); }
      Segments(a) + [] + Segments(b);
    == { assert Segments(a) + [] == Segments(a); SegmentsAppend(a, b); }
      Segments(a + b);
    }
  }

  /** "A@B" is played exactly as "AB". */
  lemma AtSignSkipped()
    ensures Segments("A@B") == Segments("AB")
  {
    assert "A@B" == "A" + ['@'] + "B";
    assert "AB" == "A" + "B";
    UnknownSkipped("A", '@', "B");
  }

  /** A space adds exactly one word-gap silence and nothing else. */
  lemma SpaceIsWordGap(a: string, b: string)
    ensures Segments(a + " " + b) == Segments(a) + [Silence(WordGapUnits)] + Segments(b)
  {
    SegmentsAppend(a + " ", b);
    SegmentsAppend(a, " ");
    SegmentsChar(' ');
  }

  /** The shape of the segments of the first `i` signals of a code: tone j
      at position 2j, and a signal gap at 2j+1 after every signal but the
      last of the code. */
  lemma {:induction false} CodeSegmentsShape(code: string, i: nat)
    requires i <= |code| && AllSignals(code)
    ensures |CodeSegments(code, i)| == if i == |code| && i > 0 then 2 * i - 1 else 2 * i
    ensures forall j :: 0 <= j < i ==> CodeSegments(code, i)[2 * j] == Tone(SignalUnits(code[j]))
    ensures forall j :: 0 <= j < i && j < |code| - 1 ==> CodeSegments(code, i)[2 * j + 1] == Silence(SignalGapUnits)
    ensures ToneUnits(CodeSegments(code, i)) == SignalUnitsOf(code[..i])
  {
    if i > 0 {
      CodeSegmentsShape(code, i - 1);
      var prev := CodeSegments(code, i - 1);
      var last := SignalSegments(code, i - 1);
      assert |prev| == 2 * (i - 1);
      assert CodeSegments(code, i) == prev + last;
      ToneUnitsAppend(prev, last);
      assert ToneUnits(last) == [SignalUnits(code[i - 1])] by {
        var gap := if i - 1 < |code| - 1 then [Silence(SignalGapUnits)] else [];
        assert last == [Tone(SignalUnits(code[i - 1]))] + gap;
        assert last[1..] == gap;
        assert ToneUnits(gap) == [] by {
          if gap != [] {
            assert gap[1..] == [];
          }
        }
      }
      assert SignalUnitsOf(code[..i]) == SignalUnitsOf(code[..i - 1]) + [SignalUnits(code[i - 1])];
    }
  }

  /** A character with a code of k signals is encoded as k tones matching its
      signals, a signal gap between consecutive tones only, and exactly one
      character gap at the end: 2k segments in all. */
  lemma LetterSegments(c: char)
    requires IsLetter(c)
    ensures var code := Lookup(c).value; var segs := CharSegments(c);
      IsCode(code) &&
      |segs| == 2 * |code| &&
      (forall j :: 0 <= j < |code| ==> segs[2 * j] == Tone(SignalUnits(code[j]))) &&
      (forall j :: 0 <= j < |code| - 1 ==> segs[2 * j + 1] == Silence(SignalGapUnits)) &&
      segs[2 * |code| - 1] == Silence(CharGapUnits)
  {
    TableWellFormed(c);
    var code := Lookup(c).value;
    CodeSegmentsShape(code, |code|);
  }

  /** The tones of the encoding are the signals of the text's letters, in
      order, each with its own length. */
  lemma {:induction false} SegmentsTones(s: string)
    ensures ToneUnits(Segments(s)) == SignalUnitsOf(Signals(s))
  {
    if s != [] {
      var s' := s[..|s| - 1];
      var c := s[|s| - 1];
      var code := if IsLetter(c) then Lookup(c).value else [];
      assert AllSignals(code) by {
        if IsLetter(c) {
          TableWellFormed(c);
        }
      }
      calc {
        ToneUnits(Segments(s));
      == { ToneUnitsAppend(Segments(s'), CharSegments(c)); }
        ToneUnits(Segments(s')) + ToneUnits(CharSegments(c));
      == { SegmentsTones(s'); CharTones(c); }
        SignalUnitsOf(Signals(s')) + SignalUnitsOf(code);
      == { assert Signals(s) == Signals(s') + code; SignalUnitsAppend(Signals(s'), code); }
        SignalUnitsOf(Signals(s));
      }
    }
  }

  lemma SignalUnitsAppend(a: string, b: string)
    requires AllSignals(a) && AllSignals(b)
    ensures AllSignals(a + b)
    ensures SignalUnitsOf(a + b) == SignalUnitsOf(a) + SignalUnitsOf(b)
  {
    assert forall i :: 0 <= i < |a + b| ==> (a + b)[i] == if i < |a| then a[i] else b[i - |a|];
  }

  /** The tones of one character are its signals. */
  lemma CharTones(c: char)
    ensures IsLetter(c) ==> ToneUnits(CharSegments(c)) == SignalUnitsOf(Lookup(c).value)
    ensures !IsLetter(c) ==> ToneUnits(CharSegments(c)) == []
  {
    if c == ' ' {
      assert ToneUnits([Silence(WordGapUnits)]) == [] by {
        assert [Silence(WordGapUnits)][1..] == [];
      }
    } else if IsLetter(c) {
      TableWellFormed(c);
      var code := Lookup(c).value;
      CodeSegmentsShape(code, |code|);
      var cs := CodeSegments(code, |code|);
      assert CharSegments(c) == cs + [Silence(CharGapUnits)];
      ToneUnitsAppend(cs, [Silence(CharGapUnits)]);
      assert ToneUnits([Silence(CharGapUnits)]) == [] by {
        assert [Silence(CharGapUnits)][1..] == [];
      }
      assert code[..|code|] == code;
    }
  }

  // ----- properties of the lamp events -----

  /** Events come in on/off pairs, one pair per tone: the on event is first,
      and the off event follows it by exactly that tone's length. */
  lemma {:induction false} EventPairs(segs: seq<Segment>, t: nat)
    ensures |EventsOf(segs, t)| == 2 * |ToneUnits(segs)|
    ensures forall i :: 0 <= i < |ToneUnits(segs)| ==>
      EventsOf(segs, t)[2 * i].lamp == On && EventsOf(segs, t)[2 * i + 1].lamp == Off &&
      EventsOf(segs, t)[2 * i + 1].time == EventsOf(segs, t)[2 * i].time + ToneUnits(segs)[i]
  {
    if segs != [] {
      EventPairs(segs[1..], t + segs[0].units);
      var rest := EventsOf(segs[1..], t + segs[0].units);
      if segs[0].Tone? {
        var ev := EventsOf(segs, t);
        assert ev == [TimingEvent(t, On), TimingEvent(t + segs[0].units, Off)] + rest;
        assert ToneUnits(segs) == [segs[0].units] + ToneUnits(segs[1..]);
        forall i | 1 <= i < |ToneUnits(segs)|
          ensures ev[2 * i].lamp == On && ev[2 * i + 1].lamp == Off &&
            ev[2 * i + 1].time == ev[2 * i].time + ToneUnits(segs)[i]
        {
          assert ev[2 * i] == rest[2 * (i - 1)];
          assert ev[2 * i + 1] == rest[2 * (i - 1) + 1];
        }
      }
    }
  }

  /** Every event of a list played from `t` lies within `[t, t + duration]`,
      and the times never decrease. */
  lemma {:induction false} EventsOrdered(segs: seq<Segment>, t: nat)
    ensures forall i :: 0 <= i < |EventsOf(segs, t)| ==>
      t <= EventsOf(segs, t)[i].time <= t + Duration(segs)
    ensures forall i, j :: 0 <= i < j < |EventsOf(segs, t)| ==>
      EventsOf(segs, t)[i].time <= EventsOf(segs, t)[j].time
  {
    if segs != [] {
      var d := segs[0].units;
      EventsOrdered(segs[1..], t + d);
    }
  }

  /** A segment list in which every segment has positive length and no two
      tones are adjacent, ending in a silence unless empty. */
  predicate Spaced(segs: seq<Segment>) {
    (forall i :: 0 <= i < |segs| ==> segs[i].units > 0) &&
    (forall i :: 0 <= i < |segs| - 1 ==> !(segs[i].Tone? && segs[i + 1].Tone?)) &&
    (segs == [] || segs[|segs| - 1].Silence?)
  }

  lemma SpacedAppend(a: seq<Segment>, b: seq<Segment>)
    requires Spaced(a) && Spaced(b)
    ensures Spaced(a + b)
  {
    if a != [] && b != [] {
      forall i | 0 <= i < |a + b| - 1 ensures !((a + b)[i].Tone? && (a + b)[i + 1].Tone?) {
        if i < |a| - 1 {
          assert (a + b)[i] == a[i] && (a + b)[i + 1] == a[i + 1];
        } else if i >= |a| {
          assert (a + b)[i] == b[i - |a|] && (a + b)[i + 1] == b[i - |a| + 1];
        }
      }
    }
  }

  /** Within a code, every segment has positive length and tones are never
      adjacent; a partial code ends in a signal gap. */
  lemma {:induction false} CodeSegmentsSpaced(code: string, i: nat)
    requires i <= |code| && AllSignals(code)
    ensures forall k :: 0 <= k < |CodeSegments(code, i)| ==> CodeSegments(code, i)[k].units > 0
    ensures forall k :: 0 <= k < |CodeSegments(code, i)| - 1 ==>
      !(CodeSegments(code, i)[k].Tone? && CodeSegments(code, i)[k + 1].Tone?)
    ensures 0 < i < |code| ==>
      CodeSegments(code, i) != [] && CodeSegments(code, i)[|CodeSegments(code, i)| - 1].Silence?
  {
    if i > 0 {
      CodeSegmentsSpaced(code, i - 1);
      var prev := CodeSegments(code, i - 1);
      var last := SignalSegments(code, i - 1);
      var cs := prev + last;
      assert CodeSegments(code, i) == cs;
      assert i - 1 > 0 ==> prev != [] && prev[|prev| - 1].Silence?;
      assert prev == [] ==> i - 1 == 0 by {
        if i - 1 > 0 {
          assert prev != [];
        }
      }
      forall k | 0 <= k < |cs| - 1 ensures !(cs[k].Tone? && cs[k + 1].Tone?) {
        if k + 1 < |prev| {
          assert cs[k] == prev[k] && cs[k + 1] == prev[k + 1];
        } else if k + 1 == |prev| {
          assert cs[k] == prev[|prev| - 1];
        } else {
          assert cs[k] == last[k - |prev|] && cs[k + 1] == last[k + 1 - |prev|];
        }
      }
    }
  }

  lemma CharSegmentsSpaced(c: char)
    ensures Spaced(CharSegments(c))
  {
    var entry := Lookup(c);
    if c != ' ' && entry.Some? && entry.value != "" {
      TableWellFormed(c);
      var code := entry.value;
      CodeSegmentsSpaced(code, |code|);
      var cs := CodeSegments(code, |code|);
      var segs := cs + [Silence(CharGapUnits)];
      assert CharSegments(c) == segs;
      forall k | 0 <= k < |segs| ensures segs[k].units > 0 {
        if k < |cs| {
          assert segs[k] == cs[k];
        }
      }
      forall k | 0 <= k < |segs| - 1 ensures !(segs[k].Tone? && segs[k + 1].Tone?) {
        if k + 1 < |cs| {
          assert segs[k] == cs[k] && segs[k + 1] == cs[k + 1];
        } else {
          assert segs[k + 1] == Silence(CharGapUnits);
        }
      }
    }
  }

  lemma {:induction false} SegmentsSpaced(s: string)
    ensures Spaced(Segments(s))
  {
    if s != [] {
      SegmentsSpaced(s[..|s| - 1]);
      CharSegmentsSpaced(s[|s| - 1]);
      SpacedAppend(Segments(s[..|s| - 1]), CharSegments(s[|s| - 1]));
    }
  }

  /** In a spaced list played from `t`, event times are strictly increasing,
      and all are later than `t` when the list starts with a silence. */
  lemma {:induction false} SpacedEventsIncrease(segs: seq<Segment>, t: nat)
    requires Spaced(segs)
    ensures forall i, j :: 0 <= i < j < |EventsOf(segs, t)| ==>
      EventsOf(segs, t)[i].time < EventsOf(segs, t)[j].time
    ensures segs != [] && segs[0].Silence? ==>
      forall i :: 0 <= i < |EventsOf(segs, t)| ==> EventsOf(segs, t)[i].time > t
  {
    if segs != [] {
      var d := segs[0].units;
      var rest := segs[1..];
      assert Spaced(rest);
      SpacedEventsIncrease(rest, t + d);
      EventsOrdered(rest, t + d);
      if segs[0].Tone? {
        assert rest != [] && rest[0] == segs[1];
        var ev := EventsOf(segs, t);
        var er := EventsOf(rest, t + d);
        assert ev == [TimingEvent(t, On), TimingEvent(t + d, Off)] + er;
        forall i, j | 0 <= i < j < |ev| ensures ev[i].time < ev[j].time {
          if i >= 2 {
            assert ev[i] == er[i - 2] && ev[j] == er[j - 2];
          } else if j >= 2 {
            assert ev[j] == er[j - 2];
          }
        }
      }
    }
  }

  /** The lamp events of any text have strictly increasing times. */
  lemma TextEventsIncrease(s: string)
    ensures forall i, j :: 0 <= i < j < |EventsOf(Segments(s), 0)| ==>
      EventsOf(Segments(s), 0)[i].time < EventsOf(Segments(s), 0)[j].time
  {
    SegmentsSpaced(s);
    SpacedEventsIncrease(Segments(s), 0);
  }

  /** The lamp events of a text: two per dot or dash of its letters,
      alternating on and off starting with on, each off event following its
      on event by that signal's length. */
  lemma TextEvents(s: string)
    ensures var ev := EventsOf(Segments(s), 0); var sig := Signals(s);
      |ev| == 2 * |sig| &&
      forall i :: 0 <= i < |sig| ==>
        ev[2 * i].lamp == On && ev[2 * i + 1].lamp == Off &&
        ev[2 * i + 1].time - ev[2 * i].time == SignalUnits(sig[i])
  {
    SegmentsTones(s);
    EventPairs(Segments(s), 0);
  }

  /** "E" is a single dot and one character gap: the lamp is on from 0 to
      0.07 s. */
  lemma SingleE()
    ensures Segments("E") == [Tone(DotUnits), Silence(CharGapUnits)]
    ensures EventsOf(Segments("E"), 0) == [TimingEvent(0, On), TimingEvent(DotUnits, Off)]
    ensures Duration(Segments("E")) == DotUnits + CharGapUnits
  {
    SegmentsChar('E');
    var segs := [Tone(DotUnits), Silence(CharGapUnits)];
    assert CodeSegments(".", 1) == [Tone(DotUnits)];
    assert segs[1..][1..] == [];
  }
}
