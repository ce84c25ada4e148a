/**
  The log that the Experience section types into its terminal
  (`generateLines` in `Experience.tsx`): a list of coloured lines, each
  with the delay in milliseconds after which its timer shows it. The
  list of experiences is a parameter; the section's own four entries are
  `Experiences`. The per-block card that shows at most three details is
  `CardDetails`.
 */
module Experience {
  import opened Text

  datatype Status = Active | Completed | Achievement

  datatype ExperienceItem = ExperienceItem(
    id: string, period: string, title: string, role: string,
    details: seq<string>, status: Status, color: string)

  datatype LogLine = LogLine(text: string, color: string, delay: nat)

  const Green := "#00ff88"
  const Grey := "#4a4a4a"
  const Purple := "#bd00ff"
  const White := "#e8e8e8"
  const Gold := "#ffd700"
  const Cyan := "#00f3ff"

  const Prompt := "$ cat /var/log/experience.log"
  const Bar := "\U{2502}"
  const Header := "\U{250C}\U{2500} EXECUTION LOGS " + Repeat('\U{2500}', 40) + "\U{2510}"
  const Footer := "\U{2514}" + Repeat('\U{2500}', 58) + "\U{2518}"
  const Tee := "\U{251C}\U{2500}"
  const Elbow := "\U{2514}\U{2500}"
  const Cursor := "$ _"

  /** The section's own experiences (lines 16-71). */
  const Experiences: seq<ExperienceItem> := [
    ExperienceItem("sakec-president", "2024-Present", "SAKEC Research Cell", "President",
      ["Managing Senior Projects Team", "Team Administration & Mentorship",
       "Research Publication Guidance", "Organizing Technical Workshops"],
      Active, "#00f3ff"),
    ExperienceItem("sakec-council", "2024-Present", "SAKEC Student Council", "Web & App Secretary",
      ["Managing Digital Presence", "Technical Initiative Leadership", "Website & App Development"],
      Active, "#bd00ff"),
    ExperienceItem("cybranex", "Oct 2023 \U{2192} Mar 2024", "CybraneX", "ML Engineer Intern",
      ["Stripe Payment Gateway (Django)", "TrOCR Deployment (Azure)",
       "Quantum ML Module Development", "Pipeline Optimization"],
      Completed, "#00ff88"),
    ExperienceItem("sih", "Dec 2023", "Smart India Hackathon", "Team Lead",
      ["GRAND FINALIST Achievement", "National Level Competition", "Real-time CV Solution"],
      Achievement, "#ffd700")
  ]

  function StatusName(s: Status): string {
    match s
    case Active => "ACTIVE"
    case Completed => "COMPLETED"
    case Achievement => "ACHIEVEMENT"
  }

  /** The status line's colour; the three statuses get three different
      colours, so the colour tells the status. */
  function StatusColor(s: Status): (c: string)
    ensures c == Green <==> s == Active
    ensures c == Gold <==> s == Achievement
    ensures c == Cyan <==> s == Completed
  {
    assert Green != Gold by { assert Green[1] != Gold[1]; }
    assert Green != Cyan by { assert Green[4] != Cyan[4]; }
    assert Gold != Cyan by { assert Gold[1] != Cyan[1]; }
    match s
    case Active => Green
    case Achievement => Gold
    case Completed => Cyan
  }

  /** The tree prefix of detail `k` of `n`: the elbow for the last one, a
      tee otherwise. */
  function DetailPrefix(k: nat, n: nat): string {
    if k == n - 1 then Elbow else Tee
  }

  /** The detail lines of one block, 80 ms apart from `delay` on. */
  function DetailLines(details: seq<string>, delay: nat): (ls: seq<LogLine>)
    ensures |ls| == |details|
  {
    seq(|details|, k requires 0 <= k < |details| =>
      LogLine(DetailLead + DetailPrefix(k, |details|) + " " + details[k], White, delay + 80 * k))
  }

  /** How far one block advances the delay. */
  function BlockSpan(e: ExperienceItem): nat {
    150 + 100 + 80 * |e.details| + 150 + 100
  }

  /** The lines of one experience, starting at `delay`. */
  function Block(e: ExperienceItem, delay: nat): (ls: seq<LogLine>)
    ensures |ls| == |e.details| + 4
  {
    var d := delay + 150 + 100;
    [LogLine(Bar + " [" + e.period + "] " + e.title, e.color, delay),
     LogLine(Bar + " " + Tee + " Role: " + e.role, Purple, delay + 150)]
    + DetailLines(e.details, d)
    + [LogLine(Bar + " " + Elbow + " Status: " + StatusName(e.status), StatusColor(e.status), d + 80 * |e.details|),
       LogLine(Bar, Grey, d + 80 * |e.details| + 150)]
  }

  /** The delay reached after the blocks of `es`. */
  function Span(es: seq<ExperienceItem>): nat {
    if es == [] then 0 else Span(es[..|es| - 1]) + BlockSpan(es[|es| - 1])
  }

  /** The blocks of `es`, appended one after the other as `forEach` does,
      from `start` on. */
  function Blocks(es: seq<ExperienceItem>, start: nat): seq<LogLine> {
    if es == [] then []
    else Blocks(es[..|es| - 1], start) + Block(es[|es| - 1], start + Span(es[..|es| - 1]))
  }

  /** The delay after the four opening lines. */
  const Opening: nat := 300 + 100 + 200 + 100

  function Preamble(): seq<LogLine> {
    [LogLine(Prompt, Green, 0), LogLine("", "", 300), LogLine(Header, Grey, 400), LogLine(Bar, Grey, 600)]
  }

  function Closing(delay: nat): seq<LogLine> {
    [LogLine(Footer, Grey, delay), LogLine("", "", delay + 200), LogLine(Cursor, Green, delay + 200 + 100)]
  }

  /** `generateLines` over a list of experiences. */
  function GenerateLines(es: seq<ExperienceItem>): seq<LogLine> {
    Preamble() + Blocks(es, Opening) + Closing(Opening + Span(es))
  }

  // ---------------------------------------------------------------------
  // Counting

  /** The number of detail lines plus four per block. */
  function BlockLineCount(es: seq<ExperienceItem>): nat {
    if es == [] then 0 else BlockLineCount(es[..|es| - 1]) + |es[|es| - 1].details| + 4
  }

  lemma {:induction false} BlocksLength(es: seq<ExperienceItem>, start: nat)
    ensures |Blocks(es, start)| == BlockLineCount(es)
  {
    if es != [] {
      BlocksLength(es[..|es| - 1], start);
    }
  }

  /** The log has seven fixed lines and `details + 4` lines per experience. */
  lemma LineCount(es: seq<ExperienceItem>)
    ensures |GenerateLines(es)| == 7 + BlockLineCount(es)
  {
    BlocksLength(es, Opening);
  }

  // ---------------------------------------------------------------------
  // Delays

  /** Each line's delay is at least the previous line's. */
  ghost predicate Sorted(ls: seq<LogLine>) {
    forall k :: 0 < k < |ls| ==> ls[k - 1].delay <= ls[k].delay
  }

  /** Every delay of `ls` lies in `[lo, hi]`. */
  ghost predicate Within(ls: seq<LogLine>, lo: nat, hi: nat) {
    forall k :: 0 <= k < |ls| ==> lo <= ls[k].delay <= hi
  }

  /** Sorted neighbours make the whole list sorted: any earlier line fires
      no later than any later one. */
  lemma {:induction false} SortedPairwise(ls: seq<LogLine>, a: nat, b: nat)
    requires Sorted(ls) && a <= b < |ls|
    decreases b - a
    ensures ls[a].delay <= ls[b].delay
  {
    if a < b {
      SortedPairwise(ls, a, b - 1);
    }
  }

  lemma SortedConcat(a: seq<LogLine>, b: seq<LogLine>, lo: nat, mid: nat, hi: nat)
    requires lo <= mid <= hi
    requires Sorted(a) && Sorted(b) && Within(a, lo, mid) && Within(b, mid, hi)
    ensures Sorted(a + b) && Within(a + b, lo, hi)
  {
    var ab := a + b;
    forall k | 0 <= k < |ab|
      ensures lo <= ab[k].delay <= hi
    {
      if k < |a| {
        assert ab[k] == a[k];
      } else {
        assert ab[k] == b[k - |a|];
      }
    }
    forall k | 0 < k < |ab|
      ensures ab[k - 1].delay <= ab[k].delay
    {
      if k < |a| {
        assert ab[k - 1] == a[k - 1] && ab[k] == a[k];
      } else if k == |a| {
        assert ab[k - 1] == a[k - 1] && ab[k] == b[0];
      } else {
        assert ab[k - 1] == b[k - 1 - |a|] && ab[k] == b[k - |a|];
      }
    }
  }

  /** A block's delays are sorted and stay within its span. */
  lemma BlockSorted(e: ExperienceItem, delay: nat)
    ensures Sorted(Block(e, delay)) && Within(Block(e, delay), delay, delay + BlockSpan(e))
  {
    var d := delay + 250;
    var n := |e.details|;
    var ls := Block(e, delay);
    var mid := DetailLines(e.details, d);
    assert ls[2..2 + n] == mid;
    forall k | 0 <= k < |ls|
      ensures delay <= ls[k].delay <= d + 80 * n + 150
    {
      if 2 <= k < 2 + n {
        assert ls[k] == mid[k - 2];
      }
    }
    forall k | 0 < k < |ls|
      ensures ls[k - 1].delay <= ls[k].delay
    {
      if 2 < k < 2 + n {
        assert ls[k - 1] == mid[k - 3] && ls[k] == mid[k - 2];
      } else if k == 2 && n > 0 {
        assert ls[k] == mid[0];
      } else if k == 2 + n && n > 0 {
        assert ls[k - 1] == mid[n - 1];
      }
    }
  }

  lemma {:induction false} BlocksSorted(es: seq<ExperienceItem>, start: nat)
    ensures Sorted(Blocks(es, start)) && Within(Blocks(es, start), start, start + Span(es))
  {
    if es != [] {
      var init := es[..|es| - 1];
      var last := es[|es| - 1];
      var mid := start + Span(init);
      BlocksSorted(init, start);
      BlockSorted(last, mid);
      assert Span(es) == Span(init) + BlockSpan(last);
      assert Blocks(es, start) == Blocks(init, start) + Block(last, mid);
      SortedConcat(Blocks(init, start), Block(last, mid), start, mid, start + Span(es));
    }
  }

  /** The fixed opening and closing lines are in order and stay within
      their spans. */
  lemma EndsSorted(delay: nat)
    ensures Sorted(Preamble()) && Within(Preamble(), 0, Opening)
    ensures Sorted(Closing(delay)) && Within(Closing(delay), delay, delay + 300)
  {
  }

  /** Delays never decrease along the log, so the timers fire in list
      order. */
  lemma DelaysNonDecreasing(es: seq<ExperienceItem>)
    ensures var ls := GenerateLines(es);
      forall a, b :: 0 <= a <= b < |ls| ==> ls[a].delay <= ls[b].delay
  {
    var pre := Preamble();
    var body := Blocks(es, Opening);
    var post := Closing(Opening + Span(es));
    BlocksSorted(es, Opening);
    EndsSorted(Opening + Span(es));
    SortedConcat(pre, body, 0, Opening, Opening + Span(es));
    SortedConcat(pre + body, post, 0, Opening + Span(es), Opening + Span(es) + 300);
    var ls := GenerateLines(es);
    forall a, b | 0 <= a <= b < |ls|
      ensures ls[a].delay <= ls[b].delay
    {
      SortedPairwise(ls, a, b);
    }
  }

  /** The log opens with the `cat` command and ends with the prompt, 100 ms
      after the blank line before it. */
  lemma FirstAndLast(es: seq<ExperienceItem>)
    ensures var ls := GenerateLines(es);
      && ls[0].text == Prompt
      && ls[|ls| - 1].text == Cursor
      && ls[|ls| - 1].delay == ls[|ls| - 2].delay + 100
  {
  }

  // ---------------------------------------------------------------------
  // Block shape

  const DetailLead := Bar + " " + Bar + "  "

  /** In a block, the head line shows period and title in the experience
      colour, the next the role; a detail line starts with the elbow
      exactly when it is the block's last detail; the status line's colour
      is that of the status. */
  lemma BlockShape(e: ExperienceItem, delay: nat)
    ensures var ls := Block(e, delay);
      && ls[0] == LogLine(Bar + " [" + e.period + "] " + e.title, e.color, delay)
      && ls[1].text == Bar + " " + Tee + " Role: " + e.role
      && (forall k :: 2 <= k < 2 + |e.details| ==>
            (IsPrefix(DetailLead + Elbow, ls[k].text) <==> k == |e.details| + 1))
      && ls[|ls| - 2].color == StatusColor(e.status)
  {
    var ls := Block(e, delay);
    var mid := DetailLines(e.details, delay + 250);
    forall k | 2 <= k < 2 + |e.details|
      ensures IsPrefix(DetailLead + Elbow, ls[k].text) <==> k == |e.details| + 1
    {
      assert ls[k] == mid[k - 2];
      var rest := " " + e.details[k - 2];
      var t := ls[k].text;
      assert t == DetailLead + DetailPrefix(k - 2, |e.details|) + rest;
      if k == |e.details| + 1 {
        assert t == (DetailLead + Elbow) + rest;
        assert t[..|DetailLead + Elbow|] == DetailLead + Elbow;
      } else {
        assert t[|DetailLead|] == Tee[0];
        assert (DetailLead + Elbow)[|DetailLead|] == Elbow[0];
      }
    }
  }

  // ---------------------------------------------------------------------
  // The section's own log

  /** The section's log has 37 lines; the last one shows at 4120 ms. */
  lemma OwnLog()
    ensures |GenerateLines(Experiences)| == 37
    ensures Span(Experiences) == 3120
  {
    var es := Experiences;
    LineCount(es);
    assert es[..4] == es;
    assert es[..4][..3] == es[..3] && es[..3][..2] == es[..2] && es[..2][..1] == es[..1] && es[..1][..0] == [];
    assert |es[0].details| == 4 && |es[1].details| == 3 && |es[2].details| == 4 && |es[3].details| == 3;
    assert Span(es[..1]) == 820 && BlockLineCount(es[..1]) == 8;
    assert Span(es[..2]) == 1560 && BlockLineCount(es[..2]) == 15;
    assert Span(es[..3]) == 2380 && BlockLineCount(es[..3]) == 23;
    assert Span(es[..4]) == 3120 && BlockLineCount(es[..4]) == 30;
  }

  // ---------------------------------------------------------------------
  // The card

  /** `exp.details.slice(0, 3)`: the first three details, in order, or all
      of them when there are fewer. */
  function CardDetails(e: ExperienceItem): (r: seq<string>)
    ensures |r| == Min(3, |e.details|)
    ensures IsPrefix(r, e.details)
  {
    e.details[..Min(3, |e.details|)]
  }

  // ---------------------------------------------------------------------
  // The source's loop

  /** `generateLines` as written: push lines and advance a running delay. */
  method GenerateLinesLoop(es: seq<ExperienceItem>) returns (lines: seq<LogLine>)
    ensures lines == GenerateLines(es)
  {
    var delay := 0;
    lines := [LogLine(Prompt, Green, delay)];
    delay := delay + 300;
    lines := lines + [LogLine("", "", delay)];
    delay := delay + 100;
    lines := lines + [LogLine(Header, Grey, delay)];
    delay := delay + 200;
    lines := lines + [LogLine(Bar, Grey, delay)];
    delay := delay + 100;
    assert lines == Preamble() && delay == Opening;
    var body;
    body, delay := BlocksLoop(es, delay);
    lines := lines + body;
    lines := lines + [LogLine(Footer, Grey, delay)];
    delay := delay + 200;
    lines := lines + [LogLine("", "", delay)];
    lines := lines + [LogLine(Cursor, Green, delay + 100)];
    assert lines == Preamble() + body + Closing(Opening + Span(es));
    assert GenerateLines(es) == Preamble() + body + Closing(Opening + Span(es));
  }

  /** The outer `forEach`: the blocks one after another, each starting at
      the delay the previous one reached. */
  method BlocksLoop(es: seq<ExperienceItem>, start: nat) returns (lines: seq<LogLine>, delay: nat)
    ensures lines == Blocks(es, start)
    ensures delay == start + Span(es)
  {
    lines := [];
    delay := start;
    var x := 0;
    while x < |es|
      invariant x <= |es|
      invariant lines == Blocks(es[..x], start)
      invariant delay == start + Span(es[..x])
    {
      var e := es[x];
      var block := BlockLoop(e, delay);
      assert es[..x + 1][..x] == es[..x] && es[..x + 1][x] == e;
      assert Blocks(es[..x + 1], start) == Blocks(es[..x], start) + Block(e, delay);
      assert Span(es[..x + 1]) == Span(es[..x]) + BlockSpan(e);
      lines := lines + block;
      delay := delay + BlockSpan(e);
      x := x + 1;
    }
    assert es[..x] == es;
  }

  /** One iteration of the outer `forEach`. */
  method BlockLoop(e: ExperienceItem, start: nat) returns (lines: seq<LogLine>)
    ensures lines == Block(e, start)
  {
    var delay := start;
    lines := [LogLine(Bar + " [" + e.period + "] " + e.title, e.color, delay)];
    delay := delay + 150;
    lines := lines + [LogLine(Bar + " " + Tee + " Role: " + e.role, Purple, delay)];
    delay := delay + 100;
    var k := 0;
    while k < |e.details|
      invariant k <= |e.details|
      invariant lines == Block(e, start)[..2 + k]
      invariant delay == start + 250 + 80 * k
    {
      var prefix := if k == |e.details| - 1 then Elbow else Tee;
      lines := lines + [LogLine(DetailLead + prefix + " " + e.details[k], White, delay)];
      delay := delay + 80;
      k := k + 1;
    }
    lines := lines + [LogLine(Bar + " " + Elbow + " Status: " + StatusName(e.status), StatusColor(e.status), delay)];
    delay := delay + 150;
    lines := lines + [LogLine(Bar, Grey, delay)];
  }
}
