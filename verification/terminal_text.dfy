/**
  The typewriter of `TerminalText.tsx`: the text appears character by
  character once the element has been seen, and the cursor shows until
  the animation completes. The anime.js tween and the start timer are
  inputs: an `Update` event carries the tween's current value and
  `Complete` is its completion callback.
 */
module TerminalText {
  import opened Text

  /** One started tween: its closure's `currentIndex`, and whether its
      completion callback has run (anime.js sends no updates after it). */
  datatype Tween = Tween(index: int, finished: bool)

  /** `displayText`, `isComplete`, `isVisible`, whether a start timer is
      pending, and the tweens started so far, oldest first. Each run of the
      animation effect has its own `currentIndex`, so each tween keeps its
      own index. */
  datatype State = State(display: string, complete: bool, visible: bool, pending: bool, tweens: seq<Tween>)

  const Initial: State := State("", false, false, false, [])

  /** An observer entry; the start timer firing; an update of tween `tween`
      with its current value; that tween's completion; and a rerun of the
      animation effect because `delay`, `speed` or `onComplete` changed. */
  datatype Event =
    | Intersect(isIntersecting: bool)
    | Start
    | Update(tween: nat, value: real)
    | Complete(tween: nat)
    | Rerun

  /** `text.substring(0, end)`: `substring` clamps `end` into
      `[0, |text|]`. */
  function Substring(text: string, end: int): (r: string)
    ensures IsPrefix(r, text)
    ensures 0 <= end <= |text| ==> |r| == end
    ensures end < 0 ==> r == []
    ensures end > |text| ==> r == text
  {
    if end < 0 then [] else if end > |text| then text else text[..end]
  }

  /** Whether `tween` names a started tween that has not finished. */
  predicate Running(s: State, tween: nat) {
    tween < |s.tweens| && !s.tweens[tween].finished
  }

  /** One event. Becoming visible runs the animation effect, which sets a
      start timer; the timer starts a new tween at index 0. A rerun's
      cleanup only clears the pending timer: the cleanup returned from
      inside the timer callback is never registered, so tweens already
      started keep running. Events for a tween that is not running change
      nothing. */
  function Step(text: string, s: State, e: Event): (t: State)
    ensures s.visible ==> t.visible
    ensures e.Intersect? && e.isIntersecting ==> t.visible
    ensures t.display != s.display ==> IsPrefix(t.display, text)
    ensures |s.tweens| <= |t.tweens|
  {
    match e
    case Intersect(isIntersecting) =>
      if isIntersecting && !s.visible then s.(visible := true, pending := true) else s
    case Start =>
      if s.pending then s.(pending := false, tweens := s.tweens + [Tween(0, false)]) else s
    case Update(k, value) =>
      var progress := value.Floor;
      if Running(s, k) && progress != s.tweens[k].index then
        s.(tweens := s.tweens[k := Tween(progress, false)], display := Substring(text, progress))
      else s
    case Complete(k) =>
      if Running(s, k) then
        s.(tweens := s.tweens[k := Tween(s.tweens[k].index, true)], display := text, complete := true)
      else s
    case Rerun =>
      if s.visible then s.(pending := true) else s
  }

  /** What the displayed text can be: a prefix of the text; and nothing is
      started, pending or complete before the element is visible. */
  ghost predicate Valid(text: string, s: State) {
    && IsPrefix(s.display, text)
    && (s.complete || s.pending || |s.tweens| > 0 ==> s.visible)
  }

  /** An update of a running tween changes the display exactly when the
      floored value differs from that tween's last index, which then
      becomes that value. */
  lemma UpdateOnlyOnNewIndex(text: string, s: State, k: nat, v: real)
    requires Running(s, k)
    ensures var t := Step(text, s, Update(k, v));
      && (v.Floor == s.tweens[k].index ==> t == s)
      && (v.Floor != s.tweens[k].index ==> t.tweens[k].index == v.Floor && t.display == Substring(text, v.Floor))
  {
  }

  /** Tweens do not share their index: an update or completion of one
      tween leaves every other tween as it was. */
  lemma TweensIndependent(text: string, s: State, e: Event, j: nat)
    requires e.Update? || e.Complete?
    requires j < |s.tweens| && j != e.tween
    ensures Step(text, s, e).tweens[j] == s.tweens[j]
  {
  }

  /** A rerun never stops a started tween; once visible, it sets a new
      start timer. */
  lemma RerunKeepsTweens(text: string, s: State)
    ensures Step(text, s, Rerun).tweens == s.tweens
    ensures Step(text, s, Rerun).display == s.display
    ensures Step(text, s, Rerun).pending <==> s.visible || s.pending
  {
  }

  /** With two tweens running, the display follows whichever updated
      last, so it can shrink: an old tween at "abcde" is overwritten by a
      new one at "ab". */
  lemma InterleavedTweens()
    ensures var s := State("a", false, true, false, [Tween(4, false), Tween(1, false)]);
      var t := Step("abcdef", s, Update(0, 5.0));
      var u := Step("abcdef", t, Update(1, 2.0));
      t.display == "abcde" && u.display == "ab"
  {
  }

  /** Completion of a running tween shows the whole text and marks the
      animation complete. */
  lemma CompleteShowsAll(text: string, s: State, k: nat)
    requires Running(s, k)
    ensures Step(text, s, Complete(k)).display == text && Step(text, s, Complete(k)).complete
  {
  }

  /** Every event keeps the displayed text a prefix of the text. */
  lemma StepKeepsValid(text: string, s: State, e: Event)
    requires Valid(text, s)
    ensures Valid(text, Step(text, s, e))
  {
  }

  /** The state after a sequence of events. */
  function Run(text: string, evs: seq<Event>): State {
    if evs == [] then Initial else Step(text, Run(text, evs[..|evs| - 1]), evs[|evs| - 1])
  }

  /** Whatever the events, the displayed text is a prefix of the text and
      the visibility never goes back to false. */
  lemma {:induction false} RunValid(text: string, evs: seq<Event>)
    ensures Valid(text, Run(text, evs))
  {
    if evs != [] {
      RunValid(text, evs[..|evs| - 1]);
      StepKeepsValid(text, Run(text, evs[..|evs| - 1]), evs[|evs| - 1]);
    }
  }

  /** Once visible, the element stays visible through any later events. */
  lemma {:induction false} VisibleStays(text: string, evs: seq<Event>, k: nat)
    requires k <= |evs| && Run(text, evs[..k]).visible
    ensures Run(text, evs).visible
    decreases |evs| - k
  {
    if k < |evs| {
      assert evs[..k + 1][..k] == evs[..k];
      VisibleStays(text, evs, k + 1);
    } else {
      assert evs[..k] == evs;
    }
  }

  /** The blinking cursor renders exactly while the animation is not
      complete, when the caller asks for it. */
  function CursorShown(showCursor: bool, s: State): bool {
    showCursor && !s.complete
  }

  /** Only a tween's completion callback completes the animation: while
      no `Complete` event has arrived, a requested cursor keeps showing. */
  lemma {:induction false} CursorUntilCompletion(text: string, evs: seq<Event>)
    ensures Run(text, evs).complete ==> exists k :: 0 <= k < |evs| && evs[k].Complete?
    ensures (forall k :: 0 <= k < |evs| ==> !evs[k].Complete?) ==> CursorShown(true, Run(text, evs))
  {
    if evs != [] {
      var init := evs[..|evs| - 1];
      CursorUntilCompletion(text, init);
      if Run(text, evs).complete && !evs[|evs| - 1].Complete? {
        var k :| 0 <= k < |init| && init[k].Complete?;
        assert evs[k] == init[k];
      }
      if forall k :: 0 <= k < |evs| ==> !evs[k].Complete? {
        assert forall k :: 0 <= k < |init| ==> init[k] == evs[k];
      }
    }
  }

  /** After completion the cursor never shows again. */
  lemma CursorGoneAfterComplete(text: string, showCursor: bool, s: State, e: Event)
    requires s.complete
    ensures !CursorShown(showCursor, Step(text, s, e))
  {
  }
}
