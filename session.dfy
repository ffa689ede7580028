/** The playback session of the application window: the re-entry guard,
    the start of playback, the audio output's idle callback and the
    periodic poll that fires due lamp events. Elapsed time is passed in, in
    the 5 ms units of the timeline. */
module Session {
  import opened Alphabet
  import opened Render
  import opened Timeline

  /** The states the audio output reports. */
  datatype AudioState = ActiveState | SuspendedState | StoppedState | IdleState | InterruptedState

  /** How a play request ends. `NothingToConcatenate` is the library error
      raised when the text has characters but none that produces a
      segment. */
  datatype PlayOutcome = AlreadyPlaying | EmptyInput | NothingToConcatenate | Started

  /** The number of events at the front of `q` that are due at `elapsed`:
      the longest prefix whose times are all at most `elapsed`. */
  function Due(q: seq<TimingEvent>, elapsed: int): (k: nat)
    ensures k <= |q|
    ensures forall i :: 0 <= i < k ==> q[i].time <= elapsed
    ensures k < |q| ==> q[k].time > elapsed
  {
    if q != [] && q[0].time <= elapsed then 1 + Due(q[1..], elapsed) else 0
  }

  /** Times in the queue never decrease. */
  predicate Sorted(q: seq<TimingEvent>) {
    forall i, j :: 0 <= i < j < |q| ==> q[i].time <= q[j].time
  }

  /** In a sorted queue the events left after the due prefix are all in the
      future, so one poll fires every due event. */
  lemma SortedDue(q: seq<TimingEvent>, elapsed: int)
    requires Sorted(q)
    ensures forall i :: Due(q, elapsed) <= i < |q| ==> q[i].time > elapsed
  {
  }

  /** Polling at `e1` and then at a later `e2` fires exactly what one poll at
      `e2` fires, split at the first poll's count: events are delivered in
      order and none twice or skipped. */
  lemma {:induction false} PollsCompose(q: seq<TimingEvent>, e1: int, e2: int)
    requires e1 <= e2
    ensures Due(q, e1) <= Due(q, e2)
    ensures Due(q, e2) == Due(q, e1) + Due(q[Due(q, e1)..], e2)
  {
    if q != [] && q[0].time <= e1 {
      PollsCompose(q[1..], e1, e2);
      assert q[1..][Due(q[1..], e1)..] == q[Due(q, e1)..];
    }
  }

  /** Every suffix of a sorted queue is sorted. */
  lemma SortedSuffix(q: seq<TimingEvent>, k: nat)
    requires Sorted(q) && k <= |q|
    ensures Sorted(q[k..])
  {
    var r := q[k..];
    forall i, j | 0 <= i < j < |r| ensures r[i].time <= r[j].time {
      assert r[i] == q[k + i] && r[j] == q[k + j];
    }
  }

  /** Dropping `a` elements and then `b` more drops `a + b`. */
  lemma DropTwice(q: seq<TimingEvent>, a: nat, b: nat)
    requires a + b <= |q|
    ensures q[a..][b..] == q[a + b..]
  {
  }

  class MorseKeyExpress {
    /** The re-entry guard. */
    var isPlaying: bool
    /** The text of the Morse label. */
    var display: string
    /** The pending lamp events, front first. */
    var timingEvents: seq<TimingEvent>
    /** The segments of the buffer last handed to the audio output. */
    var audio: seq<Segment>

    /** The queue as it stood when the last playback started. */
    ghost var schedule: seq<TimingEvent>
    /** How many of them the polls have fired. */
    ghost var popped: nat

    /** The pending events are what is left of the schedule after those
        already fired, and they are sorted by time. */
    ghost predicate Valid()
      reads this`schedule, this`popped, this`timingEvents
    {
      Sorted(timingEvents) &&
      popped <= |schedule| &&
      timingEvents == schedule[popped..]
    }

    constructor ()
      ensures Valid()
      ensures !isPlaying && display == [] && timingEvents == [] && audio == []
    {
      isPlaying := false;
      display := [];
      timingEvents := [];
      audio := [];
      schedule := [];
      popped := 0;
    }

    /** The "Interpret" button: shows the rendering of the text. */
    method TranslateText(text: string)
      requires Valid()
      modifies this
      ensures Valid()
      ensures display == Displayed(text)
      ensures isPlaying == old(isPlaying) && timingEvents == old(timingEvents) && audio == old(audio)
    {
      display := RenderText(text);
    }

    /** The "Play" button. A request while playing, or with an empty text,
        changes nothing; otherwise playback starts. */
    method Play(text: string) returns (outcome: PlayOutcome)
      requires Valid()
      modifies this
      ensures Valid()
      ensures old(isPlaying) ==> outcome == AlreadyPlaying && unchanged(this)
      ensures !old(isPlaying) && text == [] ==> outcome == EmptyInput && unchanged(this)
      ensures !old(isPlaying) && text != [] ==> isPlaying && display == Displayed(text)
      ensures !old(isPlaying) && text != [] && Segments(Upper(text)) == [] ==>
        outcome == NothingToConcatenate && timingEvents == old(timingEvents) && audio == old(audio)
      ensures !old(isPlaying) && text != [] && Segments(Upper(text)) != [] ==>
        outcome == Started && audio == Segments(Upper(text)) && timingEvents == EventsOf(audio, 0)
    {
      if isPlaying {
        return AlreadyPlaying;
      }
      if Upper(text) == [] {
        return EmptyInput;
      }
      outcome := StartPlayback(text);
    }

    /** Playback of a non-empty text with the guard clear: the rendering is
        shown, the guard is set and the timeline is built; when the text
        produced no segment the buffer concatenation fails and nothing is
        started (the guard stays set); otherwise the buffer goes to the audio
        output and its events become the queue. */
    method StartPlayback(text: string) returns (outcome: PlayOutcome)
      requires Valid() && !isPlaying && text != []
      modifies this
      ensures Valid()
      ensures isPlaying && display == Displayed(text)
      ensures Segments(Upper(text)) == [] ==>
        outcome == NothingToConcatenate && timingEvents == old(timingEvents) && audio == old(audio)
      ensures Segments(Upper(text)) != [] ==>
        outcome == Started && audio == Segments(Upper(text)) && timingEvents == EventsOf(audio, 0)
    {
      var input := Upper(text);
      display := RenderText(text);
      isPlaying := true;
      var segments, events, currentTime := BuildTimeline(input);
      if segments == [] {
        return NothingToConcatenate;
      }
      assert Sorted(events) by { EventsOrdered(segments, 0); }
      audio := segments;
      schedule := events;
      popped := 0;
      timingEvents := events;
      outcome := Started;
    }

    /** The audio output's state-change handler: idle ends the session. */
    method OnAudioStateChanged(state: AudioState)
      requires Valid()
      modifies this
      ensures Valid()
      ensures isPlaying == (old(isPlaying) && state != IdleState)
      ensures display == old(display) && timingEvents == old(timingEvents) && audio == old(audio)
    {
      if state == IdleState {
        isPlaying := false;
      }
    }

    /** One poll: when not playing it does nothing and is not rescheduled;
        otherwise it pops every event at the front of the queue whose time
        has come, in order, and reschedules itself. Because the queue is
        sorted, every event left is still in the future. */
    method Poll(elapsed: int) returns (fired: seq<TimingEvent>, reschedule: bool)
      requires Valid()
      modifies this
      ensures Valid()
      ensures reschedule == old(isPlaying)
      ensures !old(isPlaying) ==> fired == [] && unchanged(this)
      ensures old(isPlaying) ==> fired == old(timingEvents)[..Due(old(timingEvents), elapsed)]
      ensures old(isPlaying) ==> timingEvents == old(timingEvents)[Due(old(timingEvents), elapsed)..]
      ensures old(isPlaying) ==> forall i :: 0 <= i < |timingEvents| ==> timingEvents[i].time > elapsed
      ensures isPlaying == old(isPlaying) && display == old(display) && audio == old(audio)
    {
      if !isPlaying {
        return [], false;
      }
      var pending;
      fired, pending := Drain(timingEvents, elapsed);
      ghost var next := popped + |fired|;
      DrainedSchedule(schedule, popped, elapsed);
      timingEvents := pending;
      popped := next;
      reschedule := true;
    }
  }

  /** Draining what is left of a schedule after `k` fired events, when
      that rest is sorted, leaves what is left after `k` plus the due ones:
      a sorted rest with every event in the future. */
  lemma DrainedSchedule(schedule: seq<TimingEvent>, k: nat, elapsed: int)
    requires k <= |schedule| && Sorted(schedule[k..])
    ensures k + Due(schedule[k..], elapsed) <= |schedule|
    ensures schedule[k..][Due(schedule[k..], elapsed)..] == schedule[k + Due(schedule[k..], elapsed)..]
    ensures Sorted(schedule[k..][Due(schedule[k..], elapsed)..])
    ensures forall i :: Due(schedule[k..], elapsed) <= i < |schedule[k..]| ==> schedule[k..][i].time > elapsed
  {
    var q := schedule[k..];
    DropTwice(schedule, k, Due(q, elapsed));
    SortedSuffix(q, Due(q, elapsed));
    SortedDue(q, elapsed);
  }

  /** The poll's loop: pops events off the front of the queue while the
      front one is due. What it pops is exactly the due prefix and what it
      keeps is the rest, whether or not the queue is sorted. */
  method Drain(q: seq<TimingEvent>, elapsed: int) returns (fired: seq<TimingEvent>, rest: seq<TimingEvent>)
    ensures fired == q[..Due(q, elapsed)]
    ensures rest == q[Due(q, elapsed)..]
  {
    rest := q;
    fired := [];
    while rest != [] && elapsed >= rest[0].time
      invariant |fired| <= |q| && fired == q[..|fired|] && rest == q[|fired|..]
      invariant forall i :: 0 <= i < |fired| ==> fired[i].time <= elapsed
      decreases |rest|
    {
      var event := rest[0];
      assert q[..|fired| + 1] == fired + [event];
      rest := rest[1..];
      fired := fired + [event];
    }
    DueOfPrefix(q, fired, elapsed);
  }

  /** A queue split into a prefix of due events and a rest whose front is not
      due has exactly that prefix as its due part. */
  lemma {:induction false} DueOfPrefix(q: seq<TimingEvent>, p: seq<TimingEvent>, elapsed: int)
    requires |p| <= |q| && p == q[..|p|]
    requires forall i :: 0 <= i < |p| ==> p[i].time <= elapsed
    requires |p| < |q| ==> q[|p|].time > elapsed
    ensures Due(q, elapsed) == |p|
  {
    if p != [] {
      DueOfPrefix(q[1..], p[1..], elapsed);
    }
  }

  /** A text made only of characters without a table entry (but not empty)
      sets the guard and then fails, so every later request is refused, in a
      process that survives the failure. */
  method UnknownOnlyLocksPlayback() returns (first: PlayOutcome, second: PlayOutcome)
    ensures first == NothingToConcatenate
    ensures second == AlreadyPlaying
  {
    var app := new MorseKeyExpress();
    assert Upper("@") == "@";
    assert Segments("@") == [] by { SegmentsChar('@'); }
    first := app.Play("@");
    second := app.Play("E");
  }

  /** Playing "E": the lamp turns on at the first poll, off once 0.07 s have
      passed, and the idle report ends the session so that polling stops. */
  method PlaySingleE() returns (outcome: PlayOutcome, atStart: seq<TimingEvent>,
                                atDotEnd: seq<TimingEvent>, stillPolling: bool)
    ensures outcome == Started
    ensures atStart == [TimingEvent(0, On)]
    ensures atDotEnd == [TimingEvent(DotUnits, Off)]
    ensures !stillPolling
  {
    var app := new MorseKeyExpress();
    assert Upper("e") == "E";
    SingleE();
    outcome := app.Play("e");
    var more: bool;
    atStart, more := app.Poll(0);
    atDotEnd, more := app.Poll(14);
    app.OnAudioStateChanged(IdleState);
    var none: seq<TimingEvent>;
    none, stillPolling := app.Poll(100);
  }
}
