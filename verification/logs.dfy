// Collapsing repeated log lines (apps/void-cli/src/console.rs): consecutive equal
// events become one whose message ends in ` (xN)`. It is a run-length code, and a
// faithful one exactly when no message carries such a suffix already.

module Logs {
  import opened Prelude
  import opened Decimal

  datatype Tone = Runtime | Topology | Gateway | Chat | Dns | Operator | Error

  datatype Event = Event(timestamp: string, subsystem: string, message: string, tone: Tone)

  // ---- The repeat suffix ------------------------------------------------

  predicate MarkAt(s: string, i: nat) {
    i + 2 < |s| && s[i] == ' ' && s[i + 1] == '(' && s[i + 2] == 'x'
  }

  /** The last position before `end` where ` (x` stands. */
  function LastMark(s: string, end: nat): (r: Option<nat>)
    ensures r.Some? ==> MarkAt(s, r.value)
  {
    if end == 0 then None else if MarkAt(s, end - 1) then Some(end - 1) else LastMark(s, end - 1)
  }

  /** `parse_repeat_suffix`: the message before its last ` (x`, and the number between
      that and a closing parenthesis at the very end. */
  function ParseSuffix(message: string): (r: Option<(string, nat)>)
    ensures r.Some? ==> |r.value.0| < |message|
  {
    match LastMark(message, |message|)
    case None => None
    case Some(i) =>
      var suffix := message[i + 3..];
      if suffix == "" || suffix[|suffix| - 1] != ')' then None
      else
        match ParseUsize(suffix[..|suffix| - 1])
        case None => None
        case Some(count) => Some((message[..i], count))
  }

  function Base(message: string): string {
    if ParseSuffix(message).Some? then ParseSuffix(message).value.0 else message
  }

  function Count(message: string): nat {
    if ParseSuffix(message).Some? then ParseSuffix(message).value.1 else 1
  }

  function Labelled(base: string, count: nat): string {
    base + (" (x" + (Digits(count) + ")"))
  }

  lemma {:induction false} LastMarkIs(s: string, end: nat, i: nat)
    requires i < end && MarkAt(s, i) && forall j :: i < j < end ==> !MarkAt(s, j)
    ensures LastMark(s, end) == Some(i)
    decreases end
  {
    if end - 1 != i {
      LastMarkIs(s, end - 1, i);
    }
  }

  /** A label reads back, even after a base that carries a label itself. */
  lemma LabelReadsBack(base: string, count: nat)
    requires count <= USIZE_MAX
    ensures ParseSuffix(Labelled(base, count)) == Some((base, count))
  {
    var s, digits := Labelled(base, count), Digits(count);
    assert s[|base|..] == " (x" + (digits + ")");
    assert s[|base| + 3..] == digits + ")";
    assert s[|base|] == ' ' && s[|base| + 1] == '(' && s[|base| + 2] == 'x';
    forall j | |base| < j < |s| ensures !MarkAt(s, j) {
      if j >= |base| + 3 && j < |s| - 1 {
        assert s[j] == digits[j - |base| - 3];
      }
    }
    LastMarkIs(s, |s|, |base|);
    assert s[..|base|] == base;
    assert (digits + ")")[..|digits|] == digits;
    ParseOfDigits(count);
  }

  /** `digits` is how a machine word may be written: an optional `+`, then decimal digits. */
  predicate Writes(digits: string, count: nat) {
    var plain := if "+" <= digits then digits[1..] else digits;
    plain != "" && AllDigits(plain) && Value(plain) == count && count <= 0xFFFF_FFFF_FFFF_FFFF
  }

  lemma ParseUsizeIff(digits: string, count: nat)
    ensures ParseUsize(digits) == Some(count) <==> Writes(digits, count)
  {
    if digits == "+" {
      assert !IsDigit('+') && digits[0] == '+' && digits[1..] == "";
    }
    if digits != "" {
      assert "+" <= digits <==> digits[0] == '+';
    }
  }

  lemma NoLaterMark(base: string, digits: string, count: nat, j: nat)
    requires Writes(digits, count)
    ensures var s := base + (" (x" + (digits + ")"));
            MarkAt(s, |base|) && (|base| < j < |s| ==> !MarkAt(s, j))
  {
    var s := base + (" (x" + (digits + ")"));
    assert s[|base|] == ' ' && s[|base| + 1] == '(' && s[|base| + 2] == 'x' && s[|s| - 1] == ')';
    forall k | 0 <= k < |digits| ensures s[|base| + 3 + k] == digits[k] && digits[k] != ' ' {
      if "+" <= digits {
        assert k > 0 ==> digits[k] == digits[1..][k - 1] && IsDigit(digits[1..][k - 1]);
      }
    }
    if |base| + 3 <= j < |s| - 1 {
      assert s[|base| + 3 + (j - |base| - 3)] == s[j];
    }
  }

  /** A message has a suffix exactly when it ends in ` (x`, a written machine word and `)`,
      and its base is what comes before. */
  lemma SuffixIff(message: string, base: string, count: nat)
    ensures ParseSuffix(message) == Some((base, count))
       <==> exists digits :: Writes(digits, count) && message == base + (" (x" + (digits + ")"))
  {
    hide ParseUsize, LastMark, Writes;
    if ParseSuffix(message) == Some((base, count)) {
      var i := LastMark(message, |message|).value;
      var suffix := message[i + 3..];
      var digits := suffix[..|suffix| - 1];
      ParseUsizeIff(digits, count);
      assert suffix == digits + ")";
      assert message == message[..i] + (message[i..i + 3] + suffix) && message[i..i + 3] == " (x";
    }
    if digits :| Writes(digits, count) && message == base + (" (x" + (digits + ")")) {
      SuffixReads(base, digits, count);
    }
  }

  lemma SuffixReads(base: string, digits: string, count: nat)
    requires Writes(digits, count)
    ensures ParseSuffix(base + (" (x" + (digits + ")"))) == Some((base, count))
  {
    hide ParseUsize, LastMark, MarkAt;
    var s := base + (" (x" + (digits + ")"));
    NoLaterMark(base, digits, count, 0);
    forall j | |base| < j < |s| ensures !MarkAt(s, j) {
      NoLaterMark(base, digits, count, j);
    }
    LastMarkIs(s, |s|, |base|);
    assert s[..|base|] == base && s[|base| + 3..] == digits + ")" && (digits + ")")[..|digits|] == digits;
    ParseUsizeIff(digits, count);
  }

  // ---- Collapsing -------------------------------------------------------

  /** Repeats of the same event: one more of what `previous` stands for. The count is
      a machine word. */
  function Bump(previous: Event, event: Event): Event {
    var message := match ParseSuffix(previous.message)
                   case Some((base, count)) => Labelled(base, (count + 1) % (USIZE_MAX + 1))
                   case None => Labelled(previous.message, 2);
    previous.(message := message, timestamp := event.timestamp)
  }

  predicate Repeats(previous: Event, event: Event) {
    previous.subsystem == event.subsystem && Base(previous.message) == event.message
  }

  function Absorb(collapsed: seq<Event>, event: Event): seq<Event> {
    var n := |collapsed|;
    if n > 0 && Repeats(collapsed[n - 1], event) then collapsed[n - 1 := Bump(collapsed[n - 1], event)] else collapsed + [event]
  }

  function Collapse(events: seq<Event>): seq<Event> {
    if events == [] then [] else Absorb(Collapse(events[..|events| - 1]), events[|events| - 1])
  }

  lemma CollapseOneMore(events: seq<Event>, i: nat)
    requires i < |events|
    ensures Collapse(events[..i + 1]) == Absorb(Collapse(events[..i]), events[i])
  {
    assert events[..i + 1][..i] == events[..i];
  }

  method CountOneMore(previous: Event, event: Event) returns (next: Event)
    ensures next == Bump(previous, event)
  {
    var suffix := ParseSuffix(previous.message);
    next := previous;
    if suffix.Some? {
      next := next.(message := Labelled(suffix.value.0, (suffix.value.1 + 1) % (USIZE_MAX + 1)));
    } else {
      next := next.(message := Labelled(previous.message, 2));
    }
    next := next.(timestamp := event.timestamp);
  }

  method CollapseRepeatedEvents(events: seq<Event>) returns (collapsed: seq<Event>)
    ensures collapsed == Collapse(events)
  {
    hide Collapse, Bump, Base;
    collapsed := [];
    CollapseNothing();
    for i := 0 to |events|
      invariant collapsed == Collapse(events[..i])
    {
      var event, n := events[i], |collapsed|;
      CollapseOneMore(events, i);
      if n > 0 && collapsed[n - 1].subsystem == event.subsystem && Base(collapsed[n - 1].message) == event.message {
        var previous := CountOneMore(collapsed[n - 1], event);
        collapsed := collapsed[n - 1 := previous];
      } else {
        collapsed := collapsed + [event];
      }
    }
    assert events[..|events|] == events;
  }

  lemma CollapseNothing()
    ensures Collapse([]) == []
  {
  }

  // ---- Run-length coding ------------------------------------------------

  /** What an event says, apart from when and in which colour. */
  function Said(e: Event): (string, string) {
    (e.subsystem, e.message)
  }

  function AllSaid(events: seq<Event>): seq<(string, string)> {
    seq(|events|, k requires 0 <= k < |events| => Said(events[k]))
  }

  /** What a collapsed list says, every repeat written out. */
  function Expand(collapsed: seq<Event>): seq<(string, string)> {
    if collapsed == [] then []
    else
      var last := collapsed[|collapsed| - 1];
      Expand(collapsed[..|collapsed| - 1]) + seq(Count(last.message), _ => (last.subsystem, Base(last.message)))
  }

  predicate SuffixFree(events: seq<Event>) {
    forall k :: 0 <= k < |events| ==> ParseSuffix(events[k].message).None?
  }

  /** `e` stands for the run: same subsystem and message throughout, the last event's
      time and the first one's tone, and a label exactly when the run is longer than one. */
  predicate StandsFor(e: Event, run: seq<Event>) {
    && run != []
    && (forall k :: 0 <= k < |run| ==> run[k].subsystem == e.subsystem && run[k].message == Base(e.message))
    && e.timestamp == run[|run| - 1].timestamp && e.tone == run[0].tone
    && Count(e.message) == |run|
    && e.message == (if |run| == 1 then Base(e.message) else Labelled(Base(e.message), |run|))
  }

  /** `collapsed` is the run-length code of `events`: its entries stand for consecutive
      runs that make up the events, and no two neighbours could have been one run. */
  predicate Codes(collapsed: seq<Event>, events: seq<Event>) {
    if collapsed == [] then events == []
    else
      var n := |collapsed|;
      var last := collapsed[n - 1];
      var from := |events| - Count(last.message);
      && 0 <= from <= |events|
      && StandsFor(last, events[from..])
      && Codes(collapsed[..n - 1], events[..from])
      && (n > 1 ==> (collapsed[n - 2].subsystem, Base(collapsed[n - 2].message)) != (last.subsystem, Base(last.message)))
  }

  lemma OneEventRun(e: Event)
    requires ParseSuffix(e.message).None?
    ensures StandsFor(e, [e])
  {
  }

  /** A message that stands for `n` repeats is relabelled for one more. */
  lemma BumpCounts(previous: Event, n: nat, event: Event)
    requires 0 < n < USIZE_MAX && Count(previous.message) == n
    requires previous.message == (if n == 1 then Base(previous.message) else Labelled(Base(previous.message), n))
    ensures var next := Bump(previous, event).message;
            next == Labelled(Base(previous.message), n + 1) && ParseSuffix(next) == Some((Base(previous.message), n + 1))
  {
    hide LastMark, ParseUsize, Labelled;
    LabelReadsBack(Base(previous.message), n + 1);
    if n > 1 {
      LabelReadsBack(Base(previous.message), n);
    }
  }

  lemma BumpStandsForLonger(previous: Event, run: seq<Event>, event: Event)
    requires StandsFor(previous, run) && Repeats(previous, event) && |run| < USIZE_MAX
    ensures StandsFor(Bump(previous, event), run + [event]) && Base(Bump(previous, event).message) == Base(previous.message)
  {
    hide ParseSuffix, Labelled;
    BumpCounts(previous, |run|, event);
    var longer := run + [event];
    forall k | 0 <= k < |longer| ensures longer[k].subsystem == event.subsystem && longer[k].message == event.message {
      if k < |run| {
        assert longer[k] == run[k];
      }
    }
  }

  lemma RepeatKeepsCode(collapsed: seq<Event>, events: seq<Event>, event: Event)
    requires Codes(collapsed, events) && ParseSuffix(event.message).None? && |events| < USIZE_MAX
    requires collapsed != [] && Repeats(collapsed[|collapsed| - 1], event)
    ensures Codes(Absorb(collapsed, event), events + [event])
  {
    hide ParseSuffix, Bump, StandsFor, Base, Count;
    var n, all := |collapsed|, events + [event];
    var last := collapsed[n - 1];
    var from := |events| - Count(last.message);
    CountIsLength(last, events[from..]);
    BumpStandsForLonger(last, events[from..], event);
    CountIsLength(Bump(last, event), events[from..] + [event]);
    BumpKeepsSubsystem(last, event);
    assert all[from..] == events[from..] + [event] && all[..from] == events[..from];
    var after := collapsed[n - 1 := Bump(last, event)];
    assert after[..n - 1] == collapsed[..n - 1];
  }

  lemma NewRunKeepsCode(collapsed: seq<Event>, events: seq<Event>, event: Event)
    requires Codes(collapsed, events) && ParseSuffix(event.message).None?
    requires collapsed == [] || !Repeats(collapsed[|collapsed| - 1], event)
    ensures Codes(Absorb(collapsed, event), events + [event])
  {
    hide ParseSuffix, StandsFor, Count;
    var n, all := |collapsed|, events + [event];
    OneEventRun(event);
    CountIsLength(event, [event]);
    assert all[|events|..] == [event] && all[..|events|] == events;
    assert (collapsed + [event])[..n] == collapsed;
  }

  /** Absorbing one more event keeps the code. */
  lemma AbsorbKeepsCode(collapsed: seq<Event>, events: seq<Event>, event: Event)
    requires Codes(collapsed, events) && ParseSuffix(event.message).None? && |events| < USIZE_MAX
    ensures Codes(Absorb(collapsed, event), events + [event])
  {
    hide ParseSuffix, Absorb, Codes, Repeats;
    if collapsed != [] && Repeats(collapsed[|collapsed| - 1], event) {
      RepeatKeepsCode(collapsed, events, event);
    } else {
      NewRunKeepsCode(collapsed, events, event);
    }
  }

  lemma CountIsLength(e: Event, run: seq<Event>)
    requires StandsFor(e, run)
    ensures Count(e.message) == |run| > 0
    ensures run == [e] ==> Base(e.message) == e.message
  {
  }

  lemma BumpKeepsSubsystem(previous: Event, event: Event)
    ensures Bump(previous, event).subsystem == previous.subsystem
  {
  }

  lemma NothingCodes()
    ensures Codes([], [])
  {
  }

  /** Messages without a suffix are run-length coded. */
  lemma {:induction false} CollapseCodes(events: seq<Event>)
    requires SuffixFree(events) && |events| <= USIZE_MAX
    ensures Codes(Collapse(events), events)
    decreases |events|
  {
    hide Absorb, ParseSuffix, Codes;
    NothingCodes();
    if events != [] {
      var front := events[..|events| - 1];
      CollapseCodes(front);
      AbsorbKeepsCode(Collapse(front), front, events[|events| - 1]);
      assert front + [events[|events| - 1]] == events;
    }
  }

  lemma RunSays(e: Event, run: seq<Event>)
    requires StandsFor(e, run)
    ensures AllSaid(run) == seq(Count(e.message), _ => (e.subsystem, Base(e.message)))
  {
  }

  lemma NothingSaid()
    ensures AllSaid([]) == []
  {
  }

  lemma SaidInParts(events: seq<Event>, from: nat)
    requires from <= |events|
    ensures AllSaid(events) == AllSaid(events[..from]) + AllSaid(events[from..])
  {
  }

  /** A run-length code expands to what it codes. */
  lemma {:induction false} CodeExpands(collapsed: seq<Event>, events: seq<Event>)
    requires Codes(collapsed, events)
    ensures Expand(collapsed) == AllSaid(events)
    decreases collapsed
  {
    hide Base, Count, StandsFor, AllSaid;
    NothingSaid();
    if collapsed != [] {
      var n := |collapsed|;
      var last := collapsed[n - 1];
      var from := |events| - Count(last.message);
      CodeExpands(collapsed[..n - 1], events[..from]);
      RunSays(last, events[from..]);
      SaidInParts(events, from);
    }
  }

  // ---- Exactly the suffix-free lists ------------------------------------

  predicate IsBase(events: seq<Event>, s: string) {
    exists k :: 0 <= k < |events| && Base(events[k].message) == s
  }

  lemma BumpKeepsBase(previous: Event, event: Event)
    ensures Base(Bump(previous, event).message) == Base(previous.message)
  {
    hide LastMark, ParseUsize;
    match ParseSuffix(previous.message)
    case Some((base, count)) => LabelReadsBack(base, (count + 1) % (USIZE_MAX + 1));
    case None => LabelReadsBack(previous.message, 2);
  }

  /** Collapsing invents no base. */
  lemma {:induction false} CollapsedBases(events: seq<Event>, i: nat)
    requires i < |Collapse(events)|
    ensures IsBase(events, Base(Collapse(events)[i].message))
    decreases |events|
  {
    hide Base, Bump, ParseSuffix, Repeats;
    var front, event := events[..|events| - 1], events[|events| - 1];
    var before := Collapse(front);
    if i < |before| {
      CollapsedBases(front, i);
      BumpKeepsBase(before[i], event);
      var k :| 0 <= k < |front| && Base(front[k].message) == Base(before[i].message);
      assert events[k] == front[k];
    } else {
      assert Base(events[|events| - 1].message) == Base(event.message);
    }
  }

  lemma {:induction false} ExpandedSay(collapsed: seq<Event>, i: nat)
    requires i < |Expand(collapsed)|
    ensures exists k :: 0 <= k < |collapsed| && Expand(collapsed)[i].1 == Base(collapsed[k].message)
    decreases collapsed
  {
    hide Base, Count;
    var front := collapsed[..|collapsed| - 1];
    if i < |Expand(front)| {
      ExpandedSay(front, i);
      var k :| 0 <= k < |front| && Expand(front)[i].1 == Base(front[k].message);
      assert front[k] == collapsed[k];
    }
  }

  /** Of the messages with a suffix, one of the longest. */
  lemma {:induction false} LongestSuffixed(events: seq<Event>) returns (i: nat)
    requires !SuffixFree(events)
    ensures i < |events| && ParseSuffix(events[i].message).Some?
    ensures forall k :: 0 <= k < |events| && ParseSuffix(events[k].message).Some? ==> |events[k].message| <= |events[i].message|
    decreases |events|
  {
    hide ParseSuffix;
    var n := |events| - 1;
    var front := events[..n];
    if SuffixFree(front) {
      i := n;
      assert forall k :: 0 <= k < n ==> front[k] == events[k];
    } else {
      i := LongestSuffixed(front);
      assert forall k :: 0 <= k < n ==> front[k] == events[k];
      if ParseSuffix(events[n].message).Some? && |events[n].message| > |events[i].message| {
        i := n;
      }
    }
  }

  lemma LongestIsNoBase(events: seq<Event>, i: nat)
    requires i < |events| && ParseSuffix(events[i].message).Some?
    requires forall k :: 0 <= k < |events| && ParseSuffix(events[k].message).Some? ==> |events[k].message| <= |events[i].message|
    ensures !IsBase(events, events[i].message)
  {
    forall k | 0 <= k < |events| ensures Base(events[k].message) != events[i].message {
      if ParseSuffix(events[k].message).Some? {
        assert |Base(events[k].message)| < |events[k].message|;
      }
    }
  }

  /** With a suffix in some message, expanding never gives the events back: the
      longest such message is nowhere in the expansion. */
  lemma SuffixIsLost(events: seq<Event>)
    requires !SuffixFree(events)
    ensures Expand(Collapse(events)) != AllSaid(events)
  {
    hide ParseSuffix, Base, Collapse, Expand, IsBase;
    var i := LongestSuffixed(events);
    LongestIsNoBase(events, i);
    if Expand(Collapse(events)) == AllSaid(events) {
      ExpandedSay(Collapse(events), i);
      var k :| 0 <= k < |Collapse(events)| && Expand(Collapse(events))[i].1 == Base(Collapse(events)[k].message);
      CollapsedBases(events, k);
    }
  }

  /** Expanding the collapsed list gives back what was said exactly when no message
      carries a repeat suffix. */
  lemma RoundTripIffSuffixFree(events: seq<Event>)
    requires |events| <= USIZE_MAX
    ensures Expand(Collapse(events)) == AllSaid(events) <==> SuffixFree(events)
  {
    if SuffixFree(events) {
      CollapseCodes(events);
      CodeExpands(Collapse(events), events);
    } else {
      SuffixIsLost(events);
    }
  }
}
