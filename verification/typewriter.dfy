/** The reveal machine of components/TypewriterText.tsx: the text typed so
    far, the position of the next character, and the blinking cursor. Each
    timer callback is one event. */
module Typewriter {

  /** The component state for one fixed `text`; `completions` counts the
      calls of `onComplete`. */
  datatype State = State(text: string, displayed: string, index: nat, showCursor: bool, completions: nat)

  /** The first render: nothing typed, cursor shown. */
  function Start(text: string): (s: State)
    ensures Inv(s) && s.index == 0 && s.showCursor && s.completions == 0
  {
    State(text, "", 0, true, 0)
  }

  /** What every reachable state satisfies: the shown text is exactly the
      first `index` characters, and `onComplete` has only run once
      everything was shown. */
  predicate Inv(s: State) {
    && s.index <= |s.text|
    && s.displayed == s.text[..s.index]
    && (s.completions > 0 ==> s.index == |s.text|)
  }

  predicate Typing(s: State) {
    s.index < |s.text|
  }

  /** The typing timeout: while characters remain, appends the next one and
      moves the index; once none remain no typing timeout is set. */
  function Tick(s: State): (r: State)
    ensures Typing(s) ==> r.displayed == s.displayed + [s.text[s.index]] && r.index == s.index + 1
    ensures Typing(s) ==> r.showCursor == s.showCursor && r.completions == s.completions && r.text == s.text
    ensures !Typing(s) ==> r == s
  {
    if Typing(s) then s.(displayed := s.displayed + [s.text[s.index]], index := s.index + 1) else s
  }

  /** The completion timeout: set only when everything is shown; hides the
      cursor and calls `onComplete`. */
  function Finish(s: State): (r: State)
    ensures !Typing(s) ==> !r.showCursor && r.completions == s.completions + 1
    ensures !Typing(s) ==> r.displayed == s.displayed && r.index == s.index && r.text == s.text
    ensures Typing(s) ==> r == s
  {
    if Typing(s) then s else s.(showCursor := false, completions := s.completions + 1)
  }

  /** The blink interval: runs only while typing, and flips the cursor. */
  function Blink(s: State): (r: State)
    ensures Typing(s) ==> r.showCursor == !s.showCursor && r.(showCursor := s.showCursor) == s
    ensures !Typing(s) ==> r == s
  {
    if Typing(s) then s.(showCursor := !s.showCursor) else s
  }

  datatype Event = TickEvent | FinishEvent | BlinkEvent

  function Step(s: State, e: Event): State {
    match e
    case TickEvent => Tick(s)
    case FinishEvent => Finish(s)
    case BlinkEvent => Blink(s)
  }

  function Run(s: State, es: seq<Event>): State
    decreases |es|
  {
    if |es| == 0 then s else Run(Step(s, es[0]), es[1..])
  }

  /** The cursor element is rendered when `showCursor` holds and the index
      has not passed the end. */
  predicate CursorRendered(s: State) {
    s.showCursor && s.index <= |s.text|
  }

  /** Every event keeps the invariant. */
  lemma StepKeepsInv(s: State, e: Event)
    requires Inv(s)
    ensures Inv(Step(s, e)) && Step(s, e).text == s.text
  {
    if e == TickEvent && Typing(s) {
      var r := Tick(s);
      assert s.text[..s.index + 1] == s.text[..s.index] + [s.text[s.index]];
    }
  }

  /** Any run of events from the first render keeps the invariant, and the
      shown text only ever grows. */
  lemma {:induction false} RunKeepsInv(s: State, es: seq<Event>)
    requires Inv(s)
    ensures var r := Run(s, es);
      Inv(r) && r.text == s.text && s.index <= r.index && s.displayed <= r.displayed
    decreases |es|
  {
    if |es| > 0 {
      var mid := Step(s, es[0]);
      StepKeepsInv(s, es[0]);
      RunKeepsInv(mid, es[1..]);
      var r := Run(mid, es[1..]);
      assert s.displayed == s.text[..s.index] && r.displayed == s.text[..r.index];
    }
  }

  /** Under the invariant the index never passes the end, so the cursor is
      rendered exactly when `showCursor` holds. */
  lemma CursorFollowsFlag(s: State)
    requires Inv(s)
    ensures CursorRendered(s) <==> s.showCursor
  {
  }

  /** `n` ticks type the next `n` characters, in order; from the first
      render, `|text|` ticks type out the whole text. */
  lemma {:induction false} TicksTypeEverything(s: State, n: nat)
    requires Inv(s) && s.index + n <= |s.text|
    ensures var r := Run(s, Ticks(n));
      Inv(r) && r.index == s.index + n && r.displayed == s.text[..s.index + n]
    decreases n
  {
    if n > 0 {
      StepKeepsInv(s, TickEvent);
      var mid := Tick(s);
      assert Ticks(n)[0] == TickEvent && Ticks(n)[1..] == Ticks(n - 1);
      TicksTypeEverything(mid, n - 1);
    }
  }

  function Ticks(n: nat): (es: seq<Event>)
    ensures |es| == n && forall i :: 0 <= i < n ==> es[i] == TickEvent
  {
    if n == 0 then [] else [TickEvent] + Ticks(n - 1)
  }

  /** With the text fully shown and the cursor hidden, no event brings the
      cursor back or changes the text shown. */
  lemma {:induction false} HiddenAfterFinish(s: State, es: seq<Event>)
    requires Inv(s) && !Typing(s) && !s.showCursor
    ensures var r := Run(s, es);
      !r.showCursor && r.displayed == s.text && r.index == |s.text| && r.completions >= s.completions
    decreases |es|
  {
    if |es| > 0 {
      StepKeepsInv(s, es[0]);
      HiddenAfterFinish(Step(s, es[0]), es[1..]);
    } else {
      assert s.text[..|s.text|] == s.text;
    }
  }

  /** The completion that follows full typing hides the cursor for good and
      has called `onComplete`. */
  lemma CompletionIsFinal(s: State, es: seq<Event>)
    requires Inv(s) && !Typing(s)
    ensures var r := Run(Finish(s), es);
      !CursorRendered(r) && r.displayed == s.text && r.completions > s.completions
  {
    StepKeepsInv(s, FinishEvent);
    HiddenAfterFinish(Finish(s), es);
  }
}
