/**
  The Skills section's state (`Skills.tsx`): the selected category, the
  terminal buffer and the typing flag, driven by the section entering the
  viewport, the boot-sequence timers, the category buttons and the
  typing timeout. The animations and the timers' scheduling are left out:
  a timer firing is an event.
 */
module Skills {
  import opened Text

  datatype Skill = Skill(name: string, level: nat)

  datatype Category = Category(id: string, name: string, icon: string, color: string, skills: seq<Skill>)

  /** The five categories (lines 8-69). */
  const Categories: seq<Category> := [
    Category("neural-core", "Neural Core", "\U{26A1}", "#00f3ff",
      [Skill("Python", 95), Skill("Julia", 70), Skill("SQL", 85), Skill("JavaScript", 80)]),
    Category("deep-learning", "Deep Learning", "\U{1F9E0}", "#bd00ff",
      [Skill("TensorFlow", 90), Skill("PyTorch", 88), Skill("Keras", 92), Skill("Scikit-learn", 88)]),
    Category("computer-vision", "Computer Vision", "\U{1F441}\U{FE0F}", "#00ff88",
      [Skill("OpenCV", 93), Skill("YOLOv8", 88), Skill("ResNet", 85), Skill("EfficientNet", 87)]),
    Category("mlops", "MLOps & Cloud", "\U{2601}\U{FE0F}", "#ff6b35",
      [Skill("Docker", 82), Skill("Google Cloud", 78), Skill("Azure", 75), Skill("Git", 90)]),
    Category("visualization", "Visualization", "\U{1F4CA}", "#ffd700",
      [Skill("Streamlit", 88), Skill("Plotly", 85), Skill("Tableau", 80), Skill("PowerBI", 75)])
  ]

  /** The boot lines the timers append once the section is first seen. */
  const BootSequence: seq<string> := [
    "> Initializing Skills Matrix...",
    "> Loading neural_core.config",
    "> Calibrating proficiency levels...",
    "> System ready. Select category."
  ]

  /** At most this many old lines survive a category change. */
  const Kept: nat := 4

  // ---------------------------------------------------------------------
  // Terminal lines

  /** A terminal line is drawn cyan when it starts with `>`, muted
      otherwise. */
  predicate IsCommand(line: string) {
    IsPrefix(">", line)
  }

  datatype Style = CyanText | MutedText

  function LineStyle(line: string): (st: Style)
    ensures st == CyanText <==> |line| > 0 && line[0] == '>'
  {
    if IsCommand(line) then CyanText else MutedText
  }

  /** The three lines a category change prints. */
  function NewLines(c: Category): (ls: seq<string>)
    ensures |ls| == 3
  {
    ["> cat /skills/" + c.id,
     "  Loading " + c.name + "...",
     "  Found " + NatToString(|c.skills|) + " modules"]
  }

  /** Of the three new lines only the command is cyan; the count the last
      one prints reads back as the number of skills. */
  lemma NewLinesShape(c: Category)
    ensures forall k :: 0 <= k < 3 ==> (LineStyle(NewLines(c)[k]) == CyanText <==> k == 0)
    ensures var t := NewLines(c)[2];
      var digits := t[8..|t| - 8];
      AllDigits(digits) && DecimalValue(digits) == |c.skills|
  {
    var t := NewLines(c)[2];
    var n := NatToString(|c.skills|);
    assert t == "  Found " + n + " modules";
    assert t[8..|t| - 8] == n;
    DecimalRoundTrip(|c.skills|);
  }

  /** Every boot line is a command, so all of them are cyan. */
  lemma BootLinesCyan()
    ensures forall k :: 0 <= k < |BootSequence| ==> LineStyle(BootSequence[k]) == CyanText
  {
  }

  /** `prev.slice(-4)`: the last four lines, or all of them when there are
      fewer. */
  function KeepLast(prev: seq<string>): (r: seq<string>)
    ensures |r| == Min(Kept, |prev|)
    ensures r == prev[|prev| - |r|..]
  {
    if |prev| <= Kept then prev else prev[|prev| - Kept..]
  }

  /** `[...prev.slice(-4), ...newLines]`. */
  function UpdateBuffer(prev: seq<string>, c: Category): (r: seq<string>)
    ensures 3 <= |r| <= 7
    ensures |r| == Min(Kept, |prev|) + 3
    ensures r[..|r| - 3] == prev[|prev| - (|r| - 3)..]
    ensures r[|r| - 3..] == NewLines(c)
  {
    var kept := KeepLast(prev);
    var r := kept + NewLines(c);
    assert r[..|r| - 3] == kept;
    r
  }

  /** Nothing older than the last four lines survives an update, and an
      update of a buffer of at most four lines loses none. */
  lemma UpdateKeepsShortBuffer(prev: seq<string>, c: Category)
    ensures |prev| <= Kept ==> UpdateBuffer(prev, c) == prev + NewLines(c)
    ensures |prev| > Kept ==> UpdateBuffer(prev, c) == prev[|prev| - Kept..] + NewLines(c)
  {
    var r := UpdateBuffer(prev, c);
    assert r == r[..|r| - 3] + r[|r| - 3..];
  }

  /** `category.name.split(" ")[0]`: the name up to its first space. */
  function ButtonLabel(name: string): (word: string)
    ensures IsPrefix(word, name)
    ensures forall k :: 0 <= k < |word| ==> word[k] != ' '
    ensures |word| < |name| ==> name[|word|] == ' '
  {
    if name == [] || name[0] == ' ' then [] else [name[0]] + ButtonLabel(name[1..])
  }

  /** The label is determined by the three properties above: any prefix
      without a space that ends the name or stops at a space is the label. */
  lemma {:induction false} ButtonLabelUnique(name: string, w: string)
    requires IsPrefix(w, name)
    requires forall k :: 0 <= k < |w| ==> w[k] != ' '
    requires |w| < |name| ==> name[|w|] == ' '
    ensures w == ButtonLabel(name)
  {
    if name != [] && name[0] != ' ' {
      assert w != [];
      assert w[0] == name[0];
      ButtonLabelUnique(name[1..], w[1..]);
      assert w == [w[0]] + w[1..];
    }
  }

  /** The first button reads "Neural": the name stops at its space. */
  lemma FirstLabel()
    ensures ButtonLabel("Neural Core") == "Neural"
  {
    var name := "Neural Core";
    assert name[..6] == "Neural";
    assert name[6] == ' ';
    ButtonLabelUnique(name, "Neural");
  }

  /** A one-word name is its own label. */
  lemma {:induction false} OneWordLabel(name: string)
    requires forall k :: 0 <= k < |name| ==> name[k] != ' '
    ensures ButtonLabel(name) == name
  {
    assert name[..|name|] == name;
    ButtonLabelUnique(name, name);
  }

  // ---------------------------------------------------------------------
  // State machine

  /** The section's state: `activeCategory`, `terminalLines`, `isTyping`,
      the `useInView` result and the `hasAnimated` ref. */
  datatype State = State(active: nat, lines: seq<string>, typing: bool, inView: bool, animated: bool)

  const Initial: State := State(0, [], false, false, false)

  /** The events: the section comes into view (once, as `useInView` is
      asked for `once: true`); boot timer `k` fires; button `index` is
      clicked; the 1500 ms typing timeout fires. */
  datatype Event = EnterView | BootTimer(k: nat) | Click(index: nat) | TypingTimeout

  /** The category effect, run when `activeCategory` or `isInView`
      changes. */
  function CategoryEffect(s: State): (t: State)
    requires s.active < |Categories|
    ensures t.active == s.active && t.inView == s.inView && t.animated == s.animated
    ensures s.inView ==> t.typing && t.lines == UpdateBuffer(s.lines, Categories[s.active])
    ensures !s.inView ==> t == s
  {
    if s.inView then s.(typing := true, lines := UpdateBuffer(s.lines, Categories[s.active])) else s
  }

  /** One event. Only buttons for existing categories exist, so a click on
      any other index changes nothing; selecting the category already
      active does not change the state, so the effect does not rerun. */
  function Step(s: State, e: Event): (t: State)
    requires s.active < |Categories|
    ensures t.active < |Categories|
    ensures e.Click? && e.index < |Categories| ==> t.active == e.index
    ensures !e.Click? ==> t.active == s.active
    ensures s.inView ==> t.inView
    ensures e.BootTimer? && s.animated && e.k < |BootSequence| ==> t.lines == s.lines + [BootSequence[e.k]]
  {
    match e
    case EnterView =>
      if s.inView then s
      else CategoryEffect(s.(inView := true, animated := true))
    case BootTimer(k) =>
      if s.animated && k < |BootSequence| then s.(lines := s.lines + [BootSequence[k]]) else s
    case Click(index) =>
      if index >= |Categories| || index == s.active then s
      else CategoryEffect(s.(active := index))
    case TypingTimeout =>
      s.(typing := false)
  }

  /** The state after a sequence of events from the initial one. */
  function Run(evs: seq<Event>): State
    decreases |evs|
  {
    if evs == [] then Initial
    else
      var s := Run(evs[..|evs| - 1]);
      if s.active < |Categories| then Step(s, evs[|evs| - 1]) else s
  }

  /** `activeCategory` is always an index of the category list, so
      `skillCategories[activeCategory]` is always defined. */
  lemma {:induction false} ActiveInRange(evs: seq<Event>)
    ensures Run(evs).active < |Categories|
  {
    if evs != [] {
      ActiveInRange(evs[..|evs| - 1]);
    }
  }

  /** While the section has not been seen the terminal stays empty and not
      typing, whatever buttons are clicked. */
  lemma {:induction false} QuietUntilSeen(evs: seq<Event>)
    requires forall k :: 0 <= k < |evs| ==> evs[k] != EnterView
    ensures Run(evs).lines == [] && !Run(evs).typing && !Run(evs).animated && !Run(evs).inView
  {
    if evs != [] {
      QuietUntilSeen(evs[..|evs| - 1]);
      ActiveInRange(evs[..|evs| - 1]);
    }
  }

  /** Entering the view from the start prints the first category's three
      lines and starts the typing indicator. */
  lemma FirstView()
    ensures Run([EnterView]).lines == NewLines(Categories[0])
    ensures Run([EnterView]).typing
  {
    assert [EnterView][..0] == [];
    assert Run([EnterView]) == CategoryEffect(Initial.(inView := true, animated := true));
    UpdateEmpty(Categories[0]);
  }

  /** An update of the empty buffer holds just the three new lines. */
  lemma UpdateEmpty(c: Category)
    ensures UpdateBuffer([], c) == NewLines(c)
  {
    var r := UpdateBuffer([], c);
    assert r[0..] == r;
  }
}
