/**
  The text logic of `Preloader.tsx`: the 20-cell progress bar, the message
  counter the 600 ms interval advances, and which loading messages are
  shown. The anime.js progress animation and the timers are inputs: the
  progress value and the number of ticks are parameters.
 */
module Preloader {
  import opened Text

  const LoadingMessages: seq<string> := [
    "> Initializing Neural Core...",
    "> Loading model: ankit_das_v3.weights",
    "> Precision: FP16 | Batch Size: 1",
    "> Calibrating vision systems...",
    "> System Ready"
  ]

  /** The index of the last message. */
  const LastMessage: nat := |LoadingMessages| - 1

  const FullBlock: char := '\U{2588}'
  const LightShade: char := '\U{2591}'

  /** The bar has this many cells. */
  const BarCells: nat := 20

  /** `'█'.repeat(Math.floor(progress / 5)) + '░'.repeat(20 - Math.floor(progress / 5))`.
      Both repeat counts are non-negative only for `0 <= progress < 105`;
      outside that range `repeat` throws. Cell `k` is filled exactly when
      the progress has reached `5 * (k + 1)` percent. */
  function ProgressBar(progress: int): (bar: string)
    requires 0 <= progress < 105
    ensures |bar| == BarCells
    ensures forall k :: 0 <= k < |bar| ==> bar[k] == FullBlock || bar[k] == LightShade
    ensures forall k :: 0 <= k < |bar| ==> (bar[k] == FullBlock <==> 5 * (k + 1) <= progress)
  {
    var filled := progress / 5;
    Repeat(FullBlock, filled) + Repeat(LightShade, BarCells - filled)
  }

  /** A cell filled at some progress stays filled at any larger progress. */
  lemma BarMonotone(p: int, q: int, k: nat)
    requires 0 <= p <= q < 105 && k < BarCells
    ensures ProgressBar(p)[k] == FullBlock ==> ProgressBar(q)[k] == FullBlock
  {
  }

  /** Below 5% the bar is empty; at 100% it is full. */
  lemma BarEnds(p: int)
    requires 0 <= p < 105
    ensures p < 5 ==> forall k :: 0 <= k < BarCells ==> ProgressBar(p)[k] == LightShade
    ensures p >= 100 ==> forall k :: 0 <= k < BarCells ==> ProgressBar(p)[k] == FullBlock
  {
  }

  /** The interval's update: advance until the last message, then stay. */
  function NextMessage(prev: nat): (next: nat)
    ensures prev <= next <= prev + 1
    ensures prev < LastMessage ==> next == prev + 1
    ensures prev >= LastMessage ==> next == prev
  {
    if prev < |LoadingMessages| - 1 then prev + 1 else prev
  }

  /** The message index after `ticks` firings of the interval. */
  function MessageAfter(ticks: nat): nat {
    if ticks == 0 then 0 else NextMessage(MessageAfter(ticks - 1))
  }

  /** After `ticks` firings the index is `min(ticks, 4)`: it climbs one per
      tick and saturates at the last message. */
  lemma {:induction false} MessageAfterIsMin(ticks: nat)
    ensures MessageAfter(ticks) == Min(ticks, LastMessage)
  {
    if ticks > 0 {
      MessageAfterIsMin(ticks - 1);
    }
  }

  /** The index never decreases from one tick to the next and never leaves
      the message list. */
  lemma MessageIndexInRange(ticks: nat)
    ensures MessageAfter(ticks) <= MessageAfter(ticks + 1)
    ensures MessageAfter(ticks) < |LoadingMessages|
  {
    MessageAfterIsMin(ticks);
    MessageAfterIsMin(ticks + 1);
  }

  /** One rendered message line: its text and whether it is the current
      one, drawn in cyan with the blinking cursor. */
  datatype ShownMessage = ShownMessage(text: string, current: bool)

  /** `loadingMessages.slice(0, currentMessage + 1).map(...)`. */
  function Shown(currentMessage: nat): (r: seq<ShownMessage>)
    requires currentMessage < |LoadingMessages|
    ensures |r| == currentMessage + 1
    ensures forall k :: 0 <= k < |r| ==> r[k].text == LoadingMessages[k]
    ensures forall k :: 0 <= k < |r| ==> (r[k].current <==> k == |r| - 1)
  {
    var visible := LoadingMessages[..currentMessage + 1];
    seq(|visible|, k requires 0 <= k < |visible| => ShownMessage(visible[k], k == currentMessage))
  }

  /** Exactly one line is highlighted, and it is the last one shown; the
      shown texts only grow as the index advances. */
  lemma ShownGrows(a: nat, b: nat)
    requires a <= b < |LoadingMessages|
    ensures forall k :: 0 <= k < |Shown(a)| ==> Shown(a)[k].text == Shown(b)[k].text
    ensures forall k :: 0 <= k < |Shown(b)| && Shown(b)[k].current ==> k == b
  {
  }
}
