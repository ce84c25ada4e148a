# Portfolio core, modelled in Dafny

This project models the logic inside a Next.js/React portfolio site: the
pieces that decide what the site shows, with the presentation taken away.
Each source file of the core becomes one Dafny module. Timers, DOM events,
observer entries, animation callbacks and `Math.random` become explicit
inputs or events, so every piece is a pure function or a small state
machine (a state record, an event datatype, a `Step` function, and a `Run`
over a sequence of events).

| module | file | source |
|---|---|---|
| `Text` | `text.dfy` | shared helpers: white space and `trim`, `repeat`, decimal digits, `Option` |
| `Contact` | `contact.dfy` | `src/components/sections/Contact.tsx` |
| `Particles` | `particles.dfy` | `src/components/ui/ParticleNetwork.tsx` |
| `Preloader` | `preloader.dfy` | `src/components/ui/Preloader.tsx` |
| `Experience` | `experience.dfy` | `src/components/sections/Experience.tsx` |
| `Skills` | `skills.dfy` | `src/components/sections/Skills.tsx` |
| `TerminalText` | `terminal_text.dfy` | `src/components/ui/TerminalText.tsx` |
| `ScrollProgress` | `scroll_progress.dfy` | `src/hooks/useScrollProgress.ts` |
| `MousePosition` | `mouse_position.dfy` | `src/hooks/useMousePosition.ts` |
| `Cursor` | `cursor.dfy` | `src/components/ui/Cursor.tsx` |
| `VisionMode` | `vision_mode.dfy` | `src/context/VisionModeContext.tsx` |
| `NavBar` | `navbar.dfy` | `src/components/ui/NavBar.tsx` |
| `Hero` | `hero.dfy` | `src/components/sections/Hero.tsx` |

The modules cover the following behaviour:

- **Contact form.** The form checks three required fields with `trim`. It
  checks the e-mail with the regular expression `^[^\s@]+@[^\s@]+\.[^\s@]+$`.
  The model includes the change handler and the submit / simulated-send /
  success-banner cycle. The regular expression is modelled twice: as the
  scan `EmailPatternTest` and as its language `EmailPatternLanguage`. Both
  are proved equal to a shape description (`EmailShape`).
- **Particle network.** One `animate` frame is the pure function
  `Animate`. Each particle is repelled from the pointer, damped by 0.99,
  moved by one Euler step and wrapped to the canvas. Lines are drawn
  between close pairs. The method `AnimateInPlace` follows the source's
  in-place nested loops and is proved to produce the same frame. The inner
  loop compares particle `i` at its new position with particle `j > i` at
  its old one, exactly as the source does.
- **Preloader.** The 20-cell progress bar, the saturating message counter,
  and the shown messages.
- **Experience log.** `generateLines`, taking the experiences as a
  parameter. It is written both as a function (`GenerateLines`) and as
  the source's push-and-advance loop (`GenerateLinesLoop`), and the two
  are proved equal. The card's bullet list is also modelled.
- **Skills terminal.** The model covers:
  - the buffer update that keeps the last four lines;
  - the three lines printed on a category change;
  - line colouring and button labels;
  - the section's state machine (view entry, boot timers, clicks, typing
    timeout).
- **Small state machines.** The typewriter (with one index per started
  tween, since a rerun of its effect never stops a started one), the
  scroll-progress hook, the
  16 ms throttle of the mouse hook, the custom cursor, the vision-mode
  context, the navigation bar, and the hero section's particle count and
  letter spans.

`Math.sqrt` is a parameter `sqrt: real -> real`. The functions need it to
be non-negative (`SqrtNonNeg`). The lemmas that compute distances assume
it is the exact square root (`IsSqrt`).

The code is followed where a plain description of it could suggest
otherwise. One case: the boundary check sends a particle at `x < 0` to
exactly `x = width`, so positions after a frame lie in the closed range
`[0, width]`, not `[0, width)`. A particle just inside the right edge
that moves past it lands at 0, not at a wrapped offset.

## Model

| member | source | states |
|---|---|---|
| Contact.Validate | src/components/sections/Contact.tsx:83-99 | each field's error is exactly the one `validateForm` writes. The name and message errors are present iff the field is all white space. The e-mail error is "Email is required" iff it is all white space, otherwise "Invalid email format" iff the untrimmed e-mail is outside the pattern's language, so the two are mutually exclusive |
| Contact.ValidIff | src/components/sections/Contact.tsx:100-101 | the form passes (no error recorded) iff name and message are not blank and the e-mail is in the pattern's language |
| Contact.EmailPatternTestIsRegex | src/components/sections/Contact.tsx:92 | the scan implementation of the test accepts exactly the language of `^[^\s@]+@[^\s@]+\.[^\s@]+$` |
| Contact.EmailPatternShape | src/components/sections/Contact.tsx:92 | the pattern's language is exactly the strings that have no white space, exactly one '@' (not first), and after it a '.' with a character on each side |
| Contact.SplitsIffLanguage | src/components/sections/Contact.tsx:92 | the language stated with slices equals the language stated with index ranges, in both directions |
| Contact.LeadingSpaceRejected | src/components/sections/Contact.tsx:90-93 | a string starting with white space is never in the language, because the pattern sees the untrimmed e-mail |
| Contact.TrailingSpaceRejected | src/components/sections/Contact.tsx:90-93 | a string ending with white space is never in the language |
| Contact.PatternNotAllSpace | src/components/sections/Contact.tsx:90-93 | every string in the language is non-blank, so the "required" branch never hides a matching address |
| Contact.PaddedEmailIsInvalid | src/components/sections/Contact.tsx:90-94 | a valid address with a leading space gets "Invalid email format", not "Email is required" |
| Contact.IndexOf | src/components/sections/Contact.tsx:92 | the position of the first occurrence of a character, or the length when it does not occur |
| Contact.Set | src/components/sections/Contact.tsx:126 | `{ ...prev, [name]: value }` sets the named field and leaves the other two alone |
| Contact.SetError | src/components/sections/Contact.tsx:129 | the error update sets the named field's error and leaves the others alone |
| Contact.OnChange | src/components/sections/Contact.tsx:122-131 | a change writes only the named field and clears only that field's error. The other fields, the other errors and the submit flags are unchanged |
| Contact.OnSubmit | src/components/sections/Contact.tsx:104-109 | a submit replaces the errors wholesale with the validation result and starts sending iff that result is empty. The data is kept. While a send is pending, a submit changes nothing |
| Contact.OnSendSettled | src/components/sections/Contact.tsx:112-116 | when the simulated send settles, the form is emptied, the success flag is set and submitting ends |
| Contact.StepKeepsErrorsWellFormed | src/components/sections/Contact.tsx:83-131 | every event keeps each recorded error one of the messages `validateForm` writes |
| Contact.InvalidSubmitKeepsData | src/components/sections/Contact.tsx:107 | submitting an invalid form leaves `isSubmitting` false, the data untouched, and the errors those of validation |
| Contact.ValidSubmitCompletes | src/components/sections/Contact.tsx:107-116 | a valid submit followed by the settled send ends with all three fields empty, no errors, not submitting and the success flag set |
| Particles.Spawn | src/components/ui/ParticleNetwork.tsx:52-58 | a particle drawn from five values in [0, 1) lies in [0, w) x [0, h) (or at 0 on an empty side), has each velocity component in [-0.25, 0.25), and has a radius in [1, 3) |
| Particles.InitParticles | src/components/ui/ParticleNetwork.tsx:49-60 | exactly `particleCount` particles are created, each of them fresh in the sense of `Spawn` |
| Particles.Scale | src/components/ui/ParticleNetwork.tsx:53-54 | `Math.random() * extent` lies in [0, extent], strictly below a positive extent |
| Particles.RepelFactor | src/components/ui/ParticleNetwork.tsx:84-86 | for 0 < d < R the push factor `(R - d) / R * 0.5` lies in (0, 0.5) |
| Particles.Repel | src/components/ui/ParticleNetwork.tsx:79-87 | repulsion changes only the velocity, and only when 0 < dist < mouseRepelRadius. Then each velocity component gains the particle's offset from the pointer on that axis, divided by the distance, times `RepelFactor` |
| Particles.RepelPointsAway | src/components/ui/ParticleNetwork.tsx:83-86 | under repulsion each velocity component grows iff the particle lies beyond the pointer on that axis, and shrinks iff it lies before it |
| Particles.NoPushAtPointer | src/components/ui/ParticleNetwork.tsx:83 | a particle exactly at the pointer is left unchanged, so nothing is divided by zero |
| Particles.Damp | src/components/ui/ParticleNetwork.tsx:90-91 | damping changes only the velocity |
| Particles.DampShrinks | src/components/ui/ParticleNetwork.tsx:90-91 | multiplying by 0.99 never increases a component's absolute value, and strictly decreases it unless it is 0 |
| Particles.Wrap | src/components/ui/ParticleNetwork.tsx:96-99 | for a non-negative extent the result lies in the closed range [0, extent]. A negative coordinate becomes the extent, one beyond it becomes 0, and one inside is unchanged |
| Particles.WrapIdempotent | src/components/ui/ParticleNetwork.tsx:96-99 | a second boundary check changes nothing |
| Particles.Move | src/components/ui/ParticleNetwork.tsx:79-99 | after one update the particle is on the canvas (for non-negative dimensions) and keeps its radius. Without repulsion each velocity component is exactly 0.99 times the old one |
| Particles.MoveEulerStep | src/components/ui/ParticleNetwork.tsx:79-99 | the new velocity is the repelled velocity times 0.99. Each coordinate becomes the old one plus the new velocity when that lies on the canvas, the extent when it falls below 0, and 0 when it passes the extent |
| Particles.UndisturbedSlowsDown | src/components/ui/ParticleNetwork.tsx:90-91 | without repulsion an update shrinks each non-zero velocity component strictly |
| Particles.DisabledRepulsion | src/components/ui/ParticleNetwork.tsx:83 | with mouseRepelRadius <= 0 no particle is ever pushed |
| Particles.DecayIsPower | src/components/ui/ParticleNetwork.tsx:90-91 | n dampings multiply a component by 0.99 to the n |
| Particles.DecayShrinks | src/components/ui/ParticleNetwork.tsx:90-91 | repeated damping never increases a component's absolute value, and strictly decreases a non-zero one |
| Particles.VelocityDecays | src/components/ui/ParticleNetwork.tsx:83-93 | with repulsion disabled, n frames damp each velocity component n times |
| Particles.RestingParticleStays | src/components/ui/ParticleNetwork.tsx:79-99 | a particle at rest on the canvas, with repulsion disabled, does not move |
| Particles.LinesFromSound | src/components/ui/ParticleNetwork.tsx:108-115 | every line of the inner loop joins `i` to a later particle closer than `c`, with opacity 1 - d/c |
| Particles.LinesFromComplete | src/components/ui/ParticleNetwork.tsx:108-114 | the inner loop draws a line to every later particle closer than `c` |
| Particles.AllLinesSound | src/components/ui/ParticleNetwork.tsx:77-123 | every line of the frame is valid: pair i < j, i's new position against j's old one, below `c`, opacity 1 - d/c |
| Particles.AllLinesOrdered | src/components/ui/ParticleNetwork.tsx:77-123 | lines come in the order of their pairs, so no pair is drawn twice |
| Particles.AllLinesComplete | src/components/ui/ParticleNetwork.tsx:77-123 | every close pair i < j gets a line |
| Particles.OpacityInRange | src/components/ui/ParticleNetwork.tsx:114-115 | every drawn line's opacity lies in (0, 1] |
| Particles.NoLinesWhenDisabled | src/components/ui/ParticleNetwork.tsx:114 | with connectionDistance <= 0 no line is drawn |
| Particles.MoveAll | src/components/ui/ParticleNetwork.tsx:77-99 | every particle goes through one update, in place and in order |
| Particles.Animate | src/components/ui/ParticleNetwork.tsx:73-124 | a frame keeps the number and order of particles and leaves them all on the canvas. A line is drawn for i < j iff i's new position and j's old one are closer than connectionDistance, each pair at most once, and every line is valid |
| Particles.AnimateInPlace | src/components/ui/ParticleNetwork.tsx:73-124 | the in-place nested loops (update particle `i`, then scan `j > i`) compute the same particles and lines as `Animate` |
| Particles.Loops | src/components/ui/ParticleNetwork.tsx:77-124 | the outer loop leaves every particle moved and the lines of every row, in row order |
| Particles.UpdateAndConnect | src/components/ui/ParticleNetwork.tsx:78-123 | one outer pass moves particle `i` in place, leaves the later particles as they were, and appends row `i`'s lines |
| Particles.ConnectFrom | src/components/ui/ParticleNetwork.tsx:108-123 | the inner `for` loop over `j` emits the lines of the inner-loop reference function |
| Particles.TwoParticleScenario | src/components/ui/ParticleNetwork.tsx:73-124 | two resting particles 50 apart with c = 100 stay put and get one line of opacity 0.5 |
| Preloader.ProgressBar | src/components/ui/Preloader.tsx:57 | for 0 <= progress < 105 the bar has 20 cells, all full or light. Cell k is full iff progress >= 5(k+1), so the full cells come first and number floor(progress/5) |
| Preloader.BarMonotone | src/components/ui/Preloader.tsx:57 | a cell full at some progress stays full at any larger progress |
| Preloader.BarEnds | src/components/ui/Preloader.tsx:57 | the bar is empty below 5 and full from 100 on |
| Preloader.NextMessage | src/components/ui/Preloader.tsx:45-47 | the interval advances the index by one until the last message and then holds it |
| Preloader.MessageAfterIsMin | src/components/ui/Preloader.tsx:44-48 | after k ticks the index is min(k, 4) |
| Preloader.MessageIndexInRange | src/components/ui/Preloader.tsx:44-48 | the index never decreases and never leaves the message list |
| Preloader.Shown | src/components/ui/Preloader.tsx:88-99 | the shown messages are the first `currentMessage + 1`, in order, and only the last is highlighted |
| Preloader.ShownGrows | src/components/ui/Preloader.tsx:88-99 | a later index shows the earlier messages unchanged, and the highlighted line is the current message |
| Experience.StatusColor | src/components/sections/Experience.tsx:123 | ACTIVE is green, ACHIEVEMENT gold and COMPLETED cyan, and the colour determines the status |
| Experience.LineCount | src/components/sections/Experience.tsx:87-135 | the log has 7 fixed lines plus details + 4 lines per experience |
| Experience.DelaysNonDecreasing | src/components/sections/Experience.tsx:85-135 | along the log, every line's delay is at least that of every earlier line |
| Experience.BlockSorted | src/components/sections/Experience.tsx:96-130 | within one block the delays do not decrease and stay within the block's span |
| Experience.FirstAndLast | src/components/sections/Experience.tsx:87-135 | the log opens with the `cat` command and ends with the prompt, 100 ms after the line before it |
| Experience.BlockShape | src/components/sections/Experience.tsx:97-125 | a block starts with `│ [period] title` in the experience colour, then `│ ├─ Role: role`. A detail line carries the elbow iff it is the block's last detail. The status line has the status colour |
| Experience.OwnLog | src/components/sections/Experience.tsx:16-71 | the section's four experiences give a 37-line log, whose blocks span 3120 ms |
| Experience.CardDetails | src/components/sections/Experience.tsx:283 | a card lists the first min(3, n) details, in order |
| Experience.GenerateLinesLoop | src/components/sections/Experience.tsx:83-138 | the push-and-advance loop builds exactly the log of `GenerateLines` |
| Experience.BlocksLoop | src/components/sections/Experience.tsx:96-130 | the outer `forEach` appends the blocks in order, each starting at the delay the previous one reached |
| Experience.BlockLoop | src/components/sections/Experience.tsx:97-129 | one iteration of the outer `forEach` builds one block |
| Skills.LineStyle | src/components/sections/Skills.tsx:353 | a terminal line is cyan iff it starts with `>` |
| Skills.NewLinesShape | src/components/sections/Skills.tsx:138-142 | of the three new lines only the first is cyan, and the number the last one prints reads back as the category's skill count |
| Skills.BootLinesCyan | src/components/sections/Skills.tsx:96-101 | every boot line is drawn cyan |
| Skills.KeepLast | src/components/sections/Skills.tsx:144 | `prev.slice(-4)` is the last min(4, n) lines |
| Skills.UpdateBuffer | src/components/sections/Skills.tsx:144 | the new buffer is the last min(4, n) old lines followed by the three new lines, so 3 to 7 lines |
| Skills.UpdateKeepsShortBuffer | src/components/sections/Skills.tsx:144 | a buffer of at most four lines loses none, and a longer one keeps exactly its last four |
| Skills.ButtonLabel | src/components/sections/Skills.tsx:237 | the label is a prefix of the name without a space that either is the whole name or stops at a space |
| Skills.ButtonLabelUnique | src/components/sections/Skills.tsx:237 | those three properties determine the label, so it is the name up to its first space |
| Skills.FirstLabel | src/components/sections/Skills.tsx:237 | the first category's button reads "Neural" |
| Skills.OneWordLabel | src/components/sections/Skills.tsx:237 | a name without a space is its own label |
| Skills.CategoryEffect | src/components/sections/Skills.tsx:112-148 | once the section is in view, the category effect starts the typing indicator and applies the buffer update for the active category. Otherwise it does nothing |
| Skills.Step | src/components/sections/Skills.tsx:74-212 | the active category stays a valid index, and a click on an existing button selects it. A boot timer appends its line once the section has animated. Being in view is never lost |
| Skills.ActiveInRange | src/components/sections/Skills.tsx:74-212 | after any events, `activeCategory` indexes the category list |
| Skills.QuietUntilSeen | src/components/sections/Skills.tsx:81-113 | until the section enters the view, the terminal stays empty and not typing, whatever is clicked |
| Skills.FirstView | src/components/sections/Skills.tsx:112-146 | entering the view prints the first category's three lines and starts typing |
| TerminalText.Substring | src/components/ui/TerminalText.tsx:63 | `substring(0, end)` is a prefix of the text, of length `end` when in range, clamped otherwise |
| TerminalText.Step | src/components/ui/TerminalText.tsx:31-77 | visibility never reverts and an intersecting entry makes the element visible. Any changed display is a prefix of the text. No event removes a started tween |
| TerminalText.UpdateOnlyOnNewIndex | src/components/ui/TerminalText.tsx:59-65 | an update of a running tween changes the state iff floor(value) differs from that tween's recorded index. The index then becomes that value and the display that prefix |
| TerminalText.TweensIndependent | src/components/ui/TerminalText.tsx:49-70 | each tween has its own `currentIndex`: an update or completion of one tween leaves every other tween unchanged |
| TerminalText.RerunKeepsTweens | src/components/ui/TerminalText.tsx:46-77 | a rerun of the effect leaves the started tweens and the display as they were, and a start timer is pending afterwards iff the element is visible or one already was |
| TerminalText.InterleavedTweens | src/components/ui/TerminalText.tsx:49-77 | with an old and a new tween running, the display follows the last update, so it can go from "abcde" back to "ab" |
| TerminalText.CompleteShowsAll | src/components/ui/TerminalText.tsx:66-69 | completion of a running tween shows the whole text and sets `isComplete` |
| TerminalText.StepKeepsValid | src/components/ui/TerminalText.tsx:46-77 | every event keeps the display a prefix of the text, and keeps completion, a pending timer and started tweens to a visible element |
| TerminalText.RunValid | src/components/ui/TerminalText.tsx:23-70 | after any events the display is a prefix of the text |
| TerminalText.VisibleStays | src/components/ui/TerminalText.tsx:25-34 | once visible, the element stays visible through any later events |
| TerminalText.CursorUntilCompletion | src/components/ui/TerminalText.tsx:66-82 | the animation is complete only after a completion callback, so a requested cursor keeps showing until one arrives |
| TerminalText.CursorGoneAfterComplete | src/components/ui/TerminalText.tsx:66-82 | after completion no event brings the cursor back |
| ScrollProgress.Clamp | src/hooks/useScrollProgress.ts:26 | the clamp lies in [0, 1], with values at or below 0 sent to 0 and at or above 1 to 1 |
| ScrollProgress.ClampIdentity | src/hooks/useScrollProgress.ts:26 | the clamp is the identity exactly on [0, 1] and is idempotent |
| ScrollProgress.ClampMonotone | src/hooks/useScrollProgress.ts:26 | the clamp is monotone |
| ScrollProgress.PageProgress | src/hooks/useScrollProgress.ts:22-26 | page progress lies in [0, 1]. It is 0 when the page does not scroll, and the scrolled fraction of the scrollable height otherwise |
| ScrollProgress.ElementProgress | src/hooks/useScrollProgress.ts:55-58 | element progress lies in [0, 1] and equals 1 - top/height for a top inside the window. It is NaN iff the height and the top are both 0 |
| ScrollProgress.ElementMonotone | src/hooks/useScrollProgress.ts:57 | element progress never increases as the top edge moves down |
| ScrollProgress.ElementEnds | src/hooks/useScrollProgress.ts:57 | an element whose top is at or below the window's bottom has progress 0, and one whose top is at or above the window's top has progress 1 |
| ScrollProgress.Step | src/hooks/useScrollProgress.ts:22-58 | `isInView` mirrors the latest entry, and the progress changes at an entry only when it is intersecting |
| ScrollProgress.RunInRange | src/hooks/useScrollProgress.ts:14-58 | every stored progress lies in [0, 1] or is NaN, and it is never NaN when every window height is positive |
| MousePosition.Step | src/hooks/useMousePosition.ts:16-33 | an unthrottled move invokes the update, records its position and throttles. A throttled move is dropped entirely. An expiry unthrottles |
| MousePosition.StepKeepsInv | src/hooks/useMousePosition.ts:17-21 | at most one timer is pending, exactly while throttled, and every invocation has expired or is the pending one |
| MousePosition.InvocationsBounded | src/hooks/useMousePosition.ts:17-21 | invocations never exceed timer expirations plus one |
| MousePosition.FirstMoveInvokes | src/hooks/useMousePosition.ts:15-18 | the very first move is passed through, because the flag starts falsy |
| MousePosition.SecondMoveDropped | src/hooks/useMousePosition.ts:17-21 | a second move before the timer expires is dropped, not queued |
| MousePosition.PositionFromMoves | src/hooks/useMousePosition.ts:26-33 | the position is (0, 0) until the first invocation, and afterwards the coordinates of some move |
| Cursor.Chain | src/components/ui/Cursor.tsx:32-33 | the elements `closest` searches are the target followed by its ancestors |
| Cursor.Closest | src/components/ui/Cursor.tsx:32-33 | `closest` finds the first element of the chain with the tag, or null iff none has it |
| Cursor.HoverConditionIsInteractive | src/components/ui/Cursor.tsx:29-35 | the handler's five-way test holds iff the target or an ancestor is a link or a button, or the target has class `interactive`. The explicit tag tests add nothing |
| Cursor.ResizeDecidesDrawing | src/components/ui/Cursor.tsx:15-53 | after a resize to a width below 768 or a touch device nothing is drawn. After a resize to a wide, touch-free viewport the cursor is drawn again if the mouse has moved |
| Cursor.Step | src/components/ui/Cursor.tsx:15-40 | a mouse-over on an interactive target sets hovering and on any other target leaves it unchanged. A mouse-out clears it. Visibility starts at the first move and never reverts. A resize recomputes only the mobile flag |
| Cursor.Render | src/components/ui/Cursor.tsx:53-87 | nothing is drawn when mobile or not yet visible. Otherwise the diamond is at (x-12, y-12), the dot at (x-4, y-4), and the hover shape is on iff hovering |
| Cursor.VisibleAfterMove | src/components/ui/Cursor.tsx:23-24 | after any events that include a mouse move, the cursor is visible |
| Cursor.HiddenBeforeMove | src/components/ui/Cursor.tsx:10-53 | before any mouse move nothing is drawn, whatever else happens |
| VisionMode.UseContext | src/context/VisionModeContext.tsx:10-13 | the context is never null: outside a provider it is the default, inside one it is the provider's value |
| VisionMode.NeverThrows | src/context/VisionModeContext.tsx:43-49 | `useVisionMode` never throws. Outside a provider the mode is off with a no-op toggle; inside, it is the provider's mode |
| VisionMode.ToggleClass | src/context/VisionModeContext.tsx:24 | after `classList.toggle(name, force)` the class is present iff `force`, and no other class changes |
| VisionMode.Mount | src/context/VisionModeContext.tsx:20-24 | the mode starts off and the body then lacks the class |
| VisionMode.Cleanup | src/context/VisionModeContext.tsx:27-29 | the cleanup removes the class and nothing else |
| VisionMode.Toggle | src/context/VisionModeContext.tsx:22-34 | a toggle negates the mode, after which the body has the class iff the mode is on. Other classes are untouched |
| VisionMode.ToggleTwice | src/context/VisionModeContext.tsx:32-34 | two toggles restore the mode and the body |
| VisionMode.ToggleParity | src/context/VisionModeContext.tsx:20-34 | after n toggles from mount the mode is on iff n is odd, and the body always mirrors it |
| NavBar.Step | src/components/ui/NavBar.tsx:24-140 | `isScrolled` is true iff scrollY > 50. A nav click leaves the menu closed. The hamburger flips the menu. Each event touches only its own flag |
| NavBar.HamburgerTwice | src/components/ui/NavBar.tsx:140 | two presses of the hamburger restore the state |
| NavBar.NavClickIdempotent | src/components/ui/NavBar.tsx:32 | a nav click closes the menu whatever its prior state, and a second one changes nothing |
| NavBar.MenuParity | src/components/ui/NavBar.tsx:20-140 | after any events the menu is open iff the hamburger was pressed an odd number of times since the last nav click |
| NavBar.MobileLinks | src/components/ui/NavBar.tsx:175-183 | all six links render while the menu is open, none otherwise |
| NavBar.MobileLinksFromHistory | src/components/ui/NavBar.tsx:20-198 | after any events the six links show iff the hamburger was pressed an odd number of times since the last nav click, and otherwise none do. Clicking any shown link closes the menu, so no link shows afterwards |
| NavBar.VisionSwitch | src/components/ui/NavBar.tsx:100-104 | the knob is at 22 iff vision mode is on and at 2 iff it is off. The screen-reader text is "Disable Vision Mode" or "Enable Vision Mode" accordingly |
| NavBar.SwitchNamesPress | src/components/ui/NavBar.tsx:85-104 | the switch names the action its press performs: the text starts with "Enable" iff `toggleVisionMode` turns the mode and the body class on, and with "Disable" iff it turns them off. After the press the switch shows the other knob position and text |
| Hero.ParticleCount | src/components/sections/Hero.tsx:19 | the count is 15 iff the width is below 768, and 40 iff it is at least 768 |
| Hero.Resize | src/components/sections/Hero.tsx:18-23 | every run of the resize handler sets the count for the width at that moment |
| Hero.Mount | src/components/sections/Hero.tsx:15-22 | right after mount, the count is the one for the current width; the state differs from the initial one (40 particles) exactly on narrow screens |
| Hero.MountRendersSequence | src/components/sections/Hero.tsx:15-57 | the first render's network has 40 particles and the last one the count for the width. A narrow screen renders two different network configurations, so the network is set up twice; a wide screen renders one |
| Hero.NetworkConfig | src/components/sections/Hero.tsx:53-57 | the network gets the current count with connection distance 150 and repel radius 100, the network's defaults |
| Hero.WideScreenIsDefault | src/components/sections/Hero.tsx:53-57 | on a wide screen the hero's network configuration is the network's default one |
| Hero.ResizeForgets | src/components/sections/Hero.tsx:18-23 | the count depends only on the last width seen |
| Hero.Letters | src/components/sections/Hero.tsx:86-97 | one span per character of the name, with each space shown as U+00A0 and everything else unchanged |
| Hero.LettersRoundTrip | src/components/sections/Hero.tsx:86-97 | mapping U+00A0 back to a space recovers the name, for any name without U+00A0 of its own |
| Hero.NameLetters | src/components/sections/Hero.tsx:9-97 | "ANKIT DAS" gives nine spans, the sixth a non-breaking space |

## Left out

- Timers and animation: `setTimeout`, `setInterval`, `requestAnimationFrame`, anime.js and framer-motion. A timer that fires, a tween update or an animation's completion is an event of the relevant state machine. The tween values are inputs, and the staggered and spring motions are not modelled.
- Canvas drawing (`clearRect`, `arc`, `stroke`) and the line colour computed by `lineColor.replace('0.15', ...)`. The latter formats a float as a string. Lines are modelled by their endpoints and opacity.
- `Math.random`: the five draws of each particle are a parameter `Draw` with components in [0, 1).
- `Math.sqrt`: a parameter. Functions need it non-negative, and the distance lemmas need it exact.
- Floating point: numbers are Dafny `real`s, so rounding is not modelled. Infinity and NaN are not modelled, except that `ScrollProgress.ElementProgress` returns `None` for the NaN of `0 / 0` and treats `x / 0` as an infinity of the sign of `x`.
- Particles.Repel: states the push component by component, as the offset over the distance times `RepelFactor`. It does not state that the push vector has length `RepelFactor` when the square root is exact; that step needs nonlinear real reasoning the model does not carry.
- Particles: the canvas resize listener is left out. The width and height are parameters of each frame, as the frame reads them.
- Preloader.ProgressBar: requires 0 <= progress < 105. Outside that range one of the two `repeat` counts is negative and JavaScript throws a `RangeError`. The anime.js tween keeps progress within [0, 100].
- Preloader: the exit timers and `onComplete` handoff are timing only.
- Contact.OnChange: requires that every recorded error is one of the four messages. `Contact.StepKeepsErrorsWellFormed` proves that every event keeps this invariant. Under it, "an error is shown" (a truthy value) is the same as "an error is recorded".
- Contact: the e-mail's `\s` and `trim` use the white-space predicate of `Text`, which lists JavaScript's white-space and line-terminator characters. A future Unicode version adding space separators is not anticipated.
- Contact: the social links and the markup are presentation.
- Experience: the per-line timers that append the log to the screen, and the typing flag they clear, are timing. The order in which the lines appear follows from `Experience.DelaysNonDecreasing`.
- Skills: the order in which a boot timer's line and a category change's lines interleave is decided by timing. Each interleaving is a different event sequence. The skill-bar and counter animations and the terminal's auto-scroll are presentation.
- TerminalText: the start delay and the `speed` prop are timing. The start timer firing is the `Start` event, and a tween's progress arrives in `Update` events. The `onComplete` callback is the caller's.
- TerminalText: a rerun of the animation effect (`Rerun`, for a new `delay`, `speed` or `onComplete`) only clears a pending start timer. The `animation.pause()` cleanup at line 73 is returned from inside the timer callback, so React never registers it. Tweens already started keep running, each with its own `currentIndex`, and the model keeps one index per tween.
- TerminalText: a change of the `text` prop is not modelled; the text is a parameter of a whole run. In the source, a tween started before the change would keep writing prefixes of the old text.
- NavBar: `scrollIntoView` is the browser's.
- Hero: the status counter animated from 0 to 93 is presentation.
- TerminalText.Substring: counts Unicode scalar values, while JavaScript's `substring` counts UTF-16 code units. For text outside the Basic Multilingual Plane the two give different prefixes, and the source can cut a surrogate pair in half.
- JavaScript strings are UTF-16 code-unit sequences, and Dafny strings are sequences of Unicode scalar values. The fixed strings of the site are in the Basic Multilingual Plane, except the emoji icons of the skill categories, which are carried as data and never measured or split. The typed contact fields are only trimmed and matched against the e-mail pattern, and a character outside the plane and its two code units are alike there: none of them is white space or '@'.
- Contact.OnSubmit: the browser's own handling of the `type="email"` input is not modelled. The form has no `noValidate`, so the browser blocks a submit whose non-empty e-mail fails the HTML e-mail grammar, and `handleSubmit` never runs. The browser also strips leading and trailing ASCII white space from that input's value, so `Contact.LeadingSpaceRejected` and `Contact.PaddedEmailIsInvalid` describe `validateForm` on values the browser only passes when the padding is non-ASCII white space.
- `src/lib/animations.ts`, `src/types/animejs.d.ts`, `src/app/layout.tsx`, `src/app/page.tsx`, `src/components/ErrorBoundary.tsx`, `src/components/sections/About.tsx`, `src/components/sections/Certifications.tsx`, `src/components/sections/Projects.tsx` and `src/components/ui/VisionOverlay.tsx` hold static content, styling, metadata and presentation. They are not part of this model.
