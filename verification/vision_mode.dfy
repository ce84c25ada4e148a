/**
  The vision-mode context (`VisionModeContext.tsx`): the provider's
  boolean, its toggle, the effect that mirrors it into the body's class
  list, and `useVisionMode`, which reads the context. The body's class
  list is a set of class names.
 */
module VisionMode {
  import opened Text

  const VisionClass := "vision-mode"

  /** The value a component reads from the context: the mode, and whether
      its toggle reaches a provider (the default's toggle does nothing). */
  datatype ContextValue = ContextValue(visionMode: bool, fromProvider: bool)

  /** The default given to `createContext` (lines 10-13): a real object,
      never null. */
  const DefaultContext := ContextValue(false, false)

  /** `useContext`: the nearest provider's value, or the default outside
      any provider; `None` would be null. */
  function UseContext(provider: Option<bool>): (c: Option<ContextValue>)
    ensures c.Some?
    ensures provider.Some? ==> c == Some(ContextValue(provider.value, true))
    ensures provider.None? ==> c == Some(DefaultContext)
  {
    match provider
    case Some(mode) => Some(ContextValue(mode, true))
    case None => Some(DefaultContext)
  }

  datatype Outcome = Ok(ctx: ContextValue) | Thrown(message: string)

  /** `useVisionMode` (lines 43-49). */
  function UseVisionMode(provider: Option<bool>): Outcome {
    match UseContext(provider)
    case None => Thrown("useVisionMode must be used within a VisionModeProvider")
    case Some(c) => Ok(c)
  }

  /** The error cannot be reached: outside a provider the hook returns the
      default, whose mode is off and whose toggle is a no-op; inside one it
      returns the provider's mode. */
  lemma NeverThrows(provider: Option<bool>)
    ensures UseVisionMode(provider).Ok?
    ensures provider.None? ==> !UseVisionMode(provider).ctx.visionMode && !UseVisionMode(provider).ctx.fromProvider
    ensures provider.Some? ==> UseVisionMode(provider).ctx.visionMode == provider.value
  {
  }

  /** `document.body.classList.toggle(name, force)`: the class is present
      afterwards exactly when `force` is. */
  function ToggleClass(classes: set<string>, name: string, force: bool): (r: set<string>)
    ensures name in r <==> force
    ensures forall c :: c != name ==> (c in r <==> c in classes)
  {
    if force then classes + {name} else classes - {name}
  }

  /** The provider's mode and the body's classes. */
  datatype State = State(visionMode: bool, body: set<string>)

  /** Mounting: the mode starts off (line 20) and the effect runs once. */
  function Mount(body: set<string>): (s: State)
    ensures !s.visionMode && VisionClass !in s.body
  {
    State(false, ToggleClass(body, VisionClass, false))
  }

  /** The cleanup of the previous effect, also run on unmount (lines
      27-29): it removes the class and nothing else. */
  function Cleanup(body: set<string>): (r: set<string>)
    ensures VisionClass !in r
    ensures forall c :: c != VisionClass ==> (c in r <==> c in body)
  {
    body - {VisionClass}
  }

  /** `toggleVisionMode`, followed by the re-render's cleanup and effect. */
  function Toggle(s: State): (t: State)
    ensures t.visionMode == !s.visionMode
    ensures VisionClass in t.body <==> t.visionMode
    ensures forall c :: c != VisionClass ==> (c in t.body <==> c in s.body)
  {
    var mode := !s.visionMode;
    State(mode, ToggleClass(Cleanup(s.body), VisionClass, mode))
  }

  /** After the effect the body carries the class exactly when the mode is
      on. */
  ghost predicate Mirrored(s: State) {
    VisionClass in s.body <==> s.visionMode
  }

  /** Two toggles give back the mode and the body. */
  lemma ToggleTwice(s: State)
    requires Mirrored(s)
    ensures Toggle(Toggle(s)) == s
  {
    var t := Toggle(Toggle(s));
    assert t.body == s.body;
  }

  /** The mode after `n` toggles from mount is on exactly when `n` is odd,
      and the body always mirrors it. */
  function ToggleN(s: State, n: nat): State {
    if n == 0 then s else Toggle(ToggleN(s, n - 1))
  }

  lemma {:induction false} ToggleParity(body: set<string>, n: nat)
    ensures ToggleN(Mount(body), n).visionMode <==> n % 2 == 1
    ensures Mirrored(ToggleN(Mount(body), n))
  {
    if n > 0 {
      ToggleParity(body, n - 1);
    }
  }
}
