/** The per-line body of `main` (src/main.rs:68-131): extract the function
    name, give a verdict when the rule table has that name, then advance the
    transition accumulator. The stream is a finite sequence of lines, each
    read either successfully or with an error, and verdicts are returned
    instead of printed. */
module Driver {
  import opened Wrappers
  import opened Patterns
  import opened Validator
  import opened Accumulator

  /** One item of `lines()`: a line, or a read error (whose detail is only printed). */
  datatype LineRead = Line(text: string) | ReadError

  /** The two lines the checker prints: `layout OK!` and `Layout wrong!`. */
  datatype Verdict = LayoutOk | LayoutWrong

  /** What `main` changes from line to line. */
  datatype State = State(lastFn: string, transition: Transition, images: ImageLayout)

  /** The state before the first line: no function seen, no transition, no image. */
  const Start := State("", Empty, map[])

  /** `rules.get(name).map(|r| check_layout(r, current))`, rendered as a verdict:
      a verdict exactly for names in the table, and `LayoutOk` exactly when
      the check passes. */
  function Validate(rules: Rules, current: string, name: string): (v: Option<Verdict>)
    ensures v.Some? <==> name in rules
    ensures v == Some(LayoutOk) <==> name in rules && CheckLayout(rules[name], current).Ok?
  {
    if name in rules then
      Some(if CheckLayout(rules[name], current).Ok? then LayoutOk else LayoutWrong)
    else
      None
  }

  /** One iteration of the loop body, for fixed `rules` and `current_layout`. */
  function Step(rules: Rules, current: string, s: State, line: LineRead): (r: (State, Option<Verdict>))
    // A read error is reported and changes nothing.
    ensures line.ReadError? ==> r == (s, None)
    // A verdict exactly for a line naming a function the table has.
    ensures r.1.Some? <==>
      line.Line? && FunctionName(line.text).Some? && FunctionName(line.text).value in rules
    // ... and it is `layout OK!` exactly when that rule's check passes.
    ensures r.1 == Some(LayoutOk) <==>
      && line.Line? && FunctionName(line.text).Some? && FunctionName(line.text).value in rules
      && CheckLayout(rules[FunctionName(line.text).value], current).Ok?
    // Only a line carrying a function name moves `last_fn`.
    ensures line.Line? && FunctionName(line.text).Some? ==> r.0.lastFn == FunctionName(line.text).value
    ensures !(line.Line? && FunctionName(line.text).Some?) ==> r.0.lastFn == s.lastFn
    // The accumulator sees every line, whatever the validation did.
    ensures line.Line? ==> (r.0.transition, r.0.images) == Advance(s.transition, s.images, line.text)
  {
    match line
    case ReadError => (s, None)
    case Line(l) =>
      var name := FunctionName(l);
      var lastFn := if name.Some? then name.value else s.lastFn;
      var verdict := if name.Some? then Validate(rules, current, name.value) else None;
      var (t, images) := Advance(s.transition, s.images, l);
      (State(lastFn, t, images), verdict)
  }

  /** The loop over a finite stream: the final state and the verdicts in order. */
  function Trace(rules: Rules, current: string, s: State, lines: seq<LineRead>): (r: (State, seq<Verdict>))
    // At most one verdict per line, and none without a line.
    ensures |r.1| <= |lines|
    ensures lines == [] ==> r == (s, [])
    decreases |lines|
  {
    if lines == [] then
      (s, [])
    else
      var (mid, vs) := Trace(rules, current, s, lines[..|lines| - 1]);
      var (next, v) := Step(rules, current, mid, lines[|lines| - 1]);
      (next, vs + (if v.Some? then [v.value] else []))
  }

  /** One more line: one more `Step` after the trace of the lines before it. */
  lemma TraceSnoc(rules: Rules, current: string, s: State, xs: seq<LineRead>, x: LineRead)
    ensures Trace(rules, current, s, xs + [x]).0 == Step(rules, current, Trace(rules, current, s, xs).0, x).0
    ensures Trace(rules, current, s, xs + [x]).1 == Trace(rules, current, s, xs).1 +
      (var v := Step(rules, current, Trace(rules, current, s, xs).0, x).1; if v.Some? then [v.value] else [])
  {
  }

  /** Running two streams one after the other is running their concatenation. */
  lemma {:induction false} TraceAppend(rules: Rules, current: string, s: State, xs: seq<LineRead>, ys: seq<LineRead>)
    ensures Trace(rules, current, s, xs + ys).0 == Trace(rules, current, Trace(rules, current, s, xs).0, ys).0
    ensures Trace(rules, current, s, xs + ys).1 ==
      Trace(rules, current, s, xs).1 + Trace(rules, current, Trace(rules, current, s, xs).0, ys).1
    decreases |ys|
  {
    if ys == [] {
      assert xs + ys == xs;
    } else {
      var n := |ys| - 1;
      assert (xs + ys)[..|xs + ys| - 1] == xs + ys[..n];
      assert (xs + ys)[|xs + ys| - 1] == ys[n];
      TraceAppend(rules, current, s, xs, ys[..n]);
    }
  }

  /** Lines of the stream that name `name` as their function. */
  function CallCount(lines: seq<LineRead>, name: string): nat
    decreases |lines|
  {
    if lines == [] then
      0
    else
      var last := lines[|lines| - 1];
      CallCount(lines[..|lines| - 1], name) + (if last.Line? && FunctionName(last.text) == Some(name) then 1 else 0)
  }

  /** With the compiled-in table, each `vkCmdCopyBufferToImage(` line yields
      `Layout wrong!`, and no other line yields anything. */
  lemma {:induction false} TraceVerdictsAllWrong(current: string, s: State, lines: seq<LineRead>)
    ensures |Trace(LoadRules(), current, s, lines).1| == CallCount(lines, CopyBufferToImage)
    ensures forall k :: 0 <= k < |Trace(LoadRules(), current, s, lines).1| ==>
      Trace(LoadRules(), current, s, lines).1[k] == LayoutWrong
    decreases |lines|
  {
    if lines != [] {
      var init := lines[..|lines| - 1];
      TraceVerdictsAllWrong(current, s, init);
      NoRulePasses(current);
    }
  }

  /** The image map only grows over a stream: no pointer is ever forgotten. */
  lemma {:induction false} TraceKeepsImages(rules: Rules, current: string, s: State, lines: seq<LineRead>)
    ensures s.images.Keys <= Trace(rules, current, s, lines).0.images.Keys
    decreases |lines|
  {
    if lines != [] {
      TraceKeepsImages(rules, current, s, lines[..|lines| - 1]);
    }
  }

  /** Every pointer in the map and every layout it holds or the accumulator
      holds is a non-empty run of word characters, over any stream. */
  lemma {:induction false} TraceKeepsWords(rules: Rules, current: string, s: State, lines: seq<LineRead>)
    requires WordsOnly(s.transition, s.images)
    ensures WordsOnly(Trace(rules, current, s, lines).0.transition, Trace(rules, current, s, lines).0.images)
    decreases |lines|
  {
    if lines != [] {
      var mid := Trace(rules, current, s, lines[..|lines| - 1]).0;
      TraceKeepsWords(rules, current, s, lines[..|lines| - 1]);
      var last := lines[|lines| - 1];
      if last.Line? {
        AdvanceKeepsWords(mid.transition, mid.images, last.text);
      }
    }
  }

  /** A completed pair waits through any number of lines without an image
      pointer: the accumulator and the map stay exactly as they were. */
  lemma {:induction false} BothSurvivesNoise(rules: Rules, current: string, s: State, lines: seq<LineRead>)
    requires s.transition.Both?
    requires forall k :: 0 <= k < |lines| && lines[k].Line? ==> ImagePtr(lines[k].text).None?
    ensures Trace(rules, current, s, lines).0.transition == s.transition
    ensures Trace(rules, current, s, lines).0.images == s.images
    decreases |lines|
  {
    if lines != [] {
      BothSurvivesNoise(rules, current, s, lines[..|lines| - 1]);
    }
  }

  /** Three consecutive lines with an old layout, a new layout and an image
      pointer commit `pointer -> new layout` and leave the accumulator empty. */
  lemma Commit(rules: Rules, current: string, s: State, a: string, b: string, c: string)
    requires s.transition.Empty?
    requires OldLayout(a).Some? && NewLayout(b).Some? && ImagePtr(c).Some?
    ensures Trace(rules, current, s, [Line(a), Line(b), Line(c)]).0.transition == Empty
    ensures Trace(rules, current, s, [Line(a), Line(b), Line(c)]).0.images ==
      s.images[ImagePtr(c).value := NewLayout(b).value]
  {
    TraceSnoc(rules, current, s, [], Line(a));
    var s1 := Step(rules, current, s, Line(a)).0;
    assert s1.transition == Old(OldLayout(a).value) && s1.images == s.images;
    TraceSnoc(rules, current, s, [Line(a)], Line(b));
    var s2 := Step(rules, current, s1, Line(b)).0;
    assert s2.transition == Both(LayoutTransition(OldLayout(a).value, NewLayout(b).value));
    assert s2.images == s.images;
    TraceSnoc(rules, current, s, [Line(a), Line(b)], Line(c));
    assert [Line(a)] + [Line(b)] == [Line(a), Line(b)];
    assert [Line(a), Line(b)] + [Line(c)] == [Line(a), Line(b), Line(c)];
  }

  /** An old layout followed by a line without a new layout is forgotten. */
  lemma OldMissResets(rules: Rules, current: string, s: State, a: string, n: string)
    requires s.transition.Empty?
    requires OldLayout(a).Some? && NewLayout(n).None?
    ensures Trace(rules, current, s, [Line(a), Line(n)]).0.transition == Empty
    ensures Trace(rules, current, s, [Line(a), Line(n)]).0.images == s.images
  {
    TraceSnoc(rules, current, s, [], Line(a));
    var s1 := Step(rules, current, s, Line(a)).0;
    assert s1.transition == Old(OldLayout(a).value) && s1.images == s.images;
    TraceSnoc(rules, current, s, [Line(a)], Line(n));
    assert [Line(a)] + [Line(n)] == [Line(a), Line(n)];
  }

  /** Lines between the layout pair and the image pointer do not stop the commit. */
  lemma CommitAfterNoise(rules: Rules, current: string, s: State, a: string, b: string, noise: seq<LineRead>, c: string)
    requires s.transition.Empty?
    requires OldLayout(a).Some? && NewLayout(b).Some? && ImagePtr(c).Some?
    requires forall k :: 0 <= k < |noise| && noise[k].Line? ==> ImagePtr(noise[k].text).None?
    ensures Trace(rules, current, s, [Line(a), Line(b)] + noise + [Line(c)]).0.transition == Empty
    ensures Trace(rules, current, s, [Line(a), Line(b)] + noise + [Line(c)]).0.images ==
      s.images[ImagePtr(c).value := NewLayout(b).value]
  {
    var pair := [Line(a), Line(b)];
    TraceSnoc(rules, current, s, [], Line(a));
    var s1 := Step(rules, current, s, Line(a)).0;
    assert s1.transition == Old(OldLayout(a).value) && s1.images == s.images;
    TraceSnoc(rules, current, s, [Line(a)], Line(b));
    assert [Line(a)] + [Line(b)] == pair;
    var mid := Trace(rules, current, s, pair).0;
    assert mid.transition == Both(LayoutTransition(OldLayout(a).value, NewLayout(b).value));
    assert mid.images == s.images;
    TraceAppend(rules, current, s, pair, noise);
    BothSurvivesNoise(rules, current, mid, noise);
    TraceSnoc(rules, current, s, pair + noise, Line(c));
  }

  /** The three lines of one image transition as the API dump prints them.
      Each predicate stands in for its literal line, so that the verifier does
      not unroll `FieldFrom` and `RunEnd` over a constant string. */
  predicate DumpOld(a: string) {
    a == OldLayoutLabel + " VkImageLayout " + ['=', ' '] + "VK_IMAGE_LAYOUT_UNDEFINED" + " (0)"
  }

  predicate DumpNew(b: string) {
    b == NewLayoutLabel + " VkImageLayout " + ['=', ' '] + "VK_IMAGE_LAYOUT_GENERAL" + " (1)"
  }

  predicate DumpImage(c: string) {
    c == ImagePtrLabel + " VkImage " + ['=', ' '] + "0x1234"
  }

  lemma DumpOldField(a: string)
    requires DumpOld(a)
    ensures OldLayout(a) == Some("VK_IMAGE_LAYOUT_UNDEFINED")
  {
    FieldValueOfLine(a, OldLayoutLabel, " VkImageLayout ", ' ', "VK_IMAGE_LAYOUT_UNDEFINED", " (0)");
  }

  lemma DumpNewField(b: string)
    requires DumpNew(b)
    ensures NewLayout(b) == Some("VK_IMAGE_LAYOUT_GENERAL")
  {
    FieldValueOfLine(b, NewLayoutLabel, " VkImageLayout ", ' ', "VK_IMAGE_LAYOUT_GENERAL", " (1)");
  }

  lemma DumpImageField(c: string)
    requires DumpImage(c)
    ensures ImagePtr(c) == Some("0x1234")
  {
    FieldValueOfLine(c, ImagePtrLabel, " VkImage ", ' ', "0x1234", []);
  }

  /** Those three lines, from the start, commit `0x1234 -> VK_IMAGE_LAYOUT_GENERAL`. */
  lemma CommitExample(rules: Rules, current: string, a: string, b: string, c: string)
    requires DumpOld(a) && DumpNew(b) && DumpImage(c)
    ensures Trace(rules, current, Start, [Line(a), Line(b), Line(c)]).0.images == map["0x1234" := "VK_IMAGE_LAYOUT_GENERAL"]
  {
    DumpOldField(a);
    DumpNewField(b);
    DumpImageField(c);
    Commit(rules, current, Start, a, b, c);
  }

  /** The copy call, whatever layout it is validated against, is reported
      as `Layout wrong!`. */
  lemma CopyCallIsWrong(current: string, s: State, args: string)
    ensures Step(LoadRules(), current, s, Line("vkCmdCopyBufferToImage(" + args)).1 == Some(LayoutWrong)
  {
    var line := "vkCmdCopyBufferToImage(" + args;
    assert "vk" + CopyBufferToImage + "(" <= line;
    FunctionNameComplete(line, CopyBufferToImage);
    NoRulePasses(current);
  }

  /** The checker's mutable state: the locals of `main` that the loop updates.
      `images` is not declared in the source although line 117 inserts into
      it; here it is a field that starts empty. `current_layout` is never
      assigned after its initialisation, so it is a constant `""`. */
  class Checker {
    const rules: Rules
    const currentLayout: string
    var lastFn: string
    var transition: Transition
    var images: ImageLayout

    function Snapshot(): State
      reads this
    {
      State(lastFn, transition, images)
    }

    constructor ()
      ensures rules == LoadRules() && currentLayout == ""
      ensures Snapshot() == Start
    {
      rules := LoadRules();
      currentLayout := "";
      lastFn := "";
      transition := Empty;
      images := map[];
    }

    /** One iteration of the loop body on a line as `lines()` delivers it. */
    method ProcessLine(line: LineRead) returns (verdict: Option<Verdict>)
      modifies this
      ensures (Snapshot(), verdict) == Step(rules, currentLayout, old(Snapshot()), line)
    {
      verdict := None;
      if line.ReadError? {
        return;
      }
      var l := line.text;
      var found := FunctionName(l);
      if found.Some? {
        lastFn := found.value;
        if lastFn in rules {
          match CheckLayout(rules[lastFn], currentLayout) {
            case Ok(_) => verdict := Some(LayoutOk);
            case Err(_) => verdict := Some(LayoutWrong);
          }
        }
      }
      match transition {
        case Empty =>
          var ol := OldLayout(l);
          if ol.Some? {
            transition := Old(ol.value);
          }
        case Old(o) =>
          var nl := NewLayout(l);
          if nl.Some? {
            transition := Both(LayoutTransition(o, nl.value));
          } else {
            transition := Empty;
          }
        case Both(t) =>
          var ptr := ImagePtr(l);
          if ptr.Some? {
            images := images[ptr.value := t.newLayout];
            transition := Empty;
          }
      }
    }

    /** The loop of `main` over a finite stream. */
    method ProcessAll(lines: seq<LineRead>) returns (verdicts: seq<Verdict>)
      modifies this
      ensures (Snapshot(), verdicts) == Trace(rules, currentLayout, old(Snapshot()), lines)
    {
      ghost var start := Snapshot();
      verdicts := [];
      for i := 0 to |lines|
        invariant (Snapshot(), verdicts) == Trace(rules, currentLayout, start, lines[..i])
      {
        var v := ProcessLine(lines[i]);
        if v.Some? {
          verdicts := verdicts + [v.value];
        }
        TraceSnoc(rules, currentLayout, start, lines[..i], lines[i]);
        assert lines[..i] + [lines[i]] == lines[..i + 1];
        assert Snapshot() == Trace(rules, currentLayout, start, lines[..i + 1]).0;
        assert verdicts == Trace(rules, currentLayout, start, lines[..i + 1]).1;
      }
      assert lines[..|lines|] == lines;
    }
  }

  /** `main` from start to end of a finite stream: every verdict is
      `Layout wrong!`, there is one per `vkCmdCopyBufferToImage(` line, and
      the image map holds only word-character pointers and layouts. */
  method CheckStream(lines: seq<LineRead>) returns (verdicts: seq<Verdict>, images: ImageLayout)
    ensures |verdicts| == CallCount(lines, CopyBufferToImage)
    ensures forall k :: 0 <= k < |verdicts| ==> verdicts[k] == LayoutWrong
    ensures forall p :: p in images ==> IsWord(p) && IsWord(images[p])
    ensures verdicts == Trace(LoadRules(), "", Start, lines).1
    ensures images == Trace(LoadRules(), "", Start, lines).0.images
  {
    var checker := new Checker();
    verdicts := checker.ProcessAll(lines);
    images := checker.images;
    TraceVerdictsAllWrong("", Start, lines);
    TraceKeepsWords(LoadRules(), "", Start, lines);
  }
}
