/**
 * The integer arithmetic of XiView's window of line slots: Java's division,
 * the clamping of render requests, the scroll target for a `scrollto` hint,
 * the key-to-command mapping, the measured height, and the installation of a
 * range of line payloads into the slots (updateLines), given as functions.
 */
module Viewport {
  import opened Wrappers
  import opened Json
  import opened Lines

  function Max(a: int, b: int): int { if a >= b then a else b }
  function Min(a: int, b: int): int { if a <= b then a else b }

  /** Java's `/` on int by a positive divisor: the quotient is truncated toward zero. */
  function JavaDiv(a: int, b: int): int
    requires b > 0
  {
    if a >= 0 then a / b else -((-a) / b)
  }

  /** The truncated quotient: floor for a non-negative dividend, ceiling for a negative one. */
  lemma JavaDivTruncates(a: int, b: int)
    requires b > 0
    ensures a >= 0 ==> 0 <= JavaDiv(a, b) && JavaDiv(a, b) * b <= a < JavaDiv(a, b) * b + b
    ensures a < 0 ==> JavaDiv(a, b) <= 0 && JavaDiv(a, b) * b - b < a <= JavaDiv(a, b) * b
  {
  }

  /** onScrollChanged: the first line of the window and the pixel offset of slot 0. */
  lemma ScrollOffsetBounds(t: int, lineHeight: int)
    requires lineHeight > 0
    ensures var y := JavaDiv(t, lineHeight) * lineHeight - t;
      (t >= 0 ==> -lineHeight < y <= 0) && (t < 0 ==> 0 <= y < lineHeight)
  {
    JavaDivTruncates(t, lineHeight);
  }

  /**
   * sendRenderLines' clamping to [winFirst, winFirst + len); the request is
   * skipped only when the clamped bounds coincide.
   */
  function RenderRange(first: int, last: int, winFirst: int, len: int): (r: Option<(int, int)>)
    ensures r.Some? ==> r.value.0 == Max(first, winFirst) && r.value.1 == Min(last, winFirst + len)
    ensures r.Some? ==>
      first <= r.value.0 && winFirst <= r.value.0 && r.value.1 <= last && r.value.1 <= winFirst + len
    ensures r.None? <==> Max(first, winFirst) == Min(last, winFirst + len)
  {
    var f := Max(first, winFirst);
    var l := Min(last, winFirst + len);
    if f == l then None else Some((f, l))
  }

  /** Whether document line `line` is in the window of len lines starting at first. */
  predicate InWindow(first: int, len: int, line: int) {
    first <= line < first + len
  }

  /**
   * After the window moves from prev to next, the document lines of the new
   * window that were not in the old one: the slots onScrollChanged has to ask for.
   */
  function Exposed(prev: int, next: int, len: int): (r: (int, int))
    requires len > 0
    ensures r.0 <= r.1
  {
    if next > prev then (next + Max(len - (next - prev), 0), next + len)
    else if next < prev then (next, next + Min(prev - next, len))
    else (next, next)
  }

  /** The exposed range holds exactly the lines of the new window that the old one did not show. */
  lemma ExposedIsNewlyVisible(prev: int, next: int, len: int, line: int)
    requires len > 0
    ensures var r := Exposed(prev, next, len);
      InWindow(r.0, r.1 - r.0, line) <==> InWindow(next, len, line) && !InWindow(prev, len, line)
  {
  }

  /** A forward scroll asks for [prev + len, next + len): once clamped, exactly the exposed lines. */
  lemma ForwardRequestIsExposed(prev: int, next: int, len: int)
    requires prev < next && len > 0
    ensures RenderRange(prev + len, next + len, next, len) == Some(Exposed(prev, next, len))
  {
  }

  /** A backward scroll asks for [next, prev): once clamped, exactly the exposed lines. */
  lemma BackwardRequestIsExposed(prev: int, next: int, len: int)
    requires next < prev && len > 0
    ensures RenderRange(next, prev, next, len) == Some(Exposed(prev, next, len))
  {
  }

  /** Growing the window from prevLen to newLen asks for exactly the new tail. */
  lemma GrowRequestIsNewTail(first: int, prevLen: int, newLen: int)
    requires 0 <= prevLen < newLen
    ensures RenderRange(first + prevLen, first + newLen, first, newLen) == Some((first + prevLen, first + newLen))
  {
  }

  /**
   * The slots after onScrollChanged moves the window by d lines: the copy
   * loops move each slot whose line stays in view, and leave every other
   * slot as it was.
   */
  function Scrolled<T>(s: seq<T>, d: int): (r: seq<T>)
    ensures |r| == |s|
  {
    seq(|s|, k requires 0 <= k < |s| => if 0 <= k + d < |s| then s[k + d] else s[k])
  }

  /** A document line in both windows keeps its reconstruction across the scroll. */
  lemma ScrolledKeepsLines<T>(s: seq<T>, prev: int, next: int, line: int)
    requires prev <= line < prev + |s| && next <= line < next + |s|
    ensures Scrolled(s, next - prev)[line - next] == s[line - prev]
  {
  }

  /**
   * A slot whose line was not in the old window keeps its old contents: it
   * shows a stale line until the render request is answered.
   */
  lemma ScrolledLeavesExposedStale<T>(s: seq<T>, prev: int, next: int, k: int)
    requires 0 <= k < |s| && !(prev <= next + k < prev + |s|)
    ensures Scrolled(s, next - prev)[k] == s[k]
  {
  }

  /** Scrolling by zero changes nothing. */
  lemma ScrolledZero<T>(s: seq<T>)
    ensures Scrolled(s, 0) == s
  {
  }

  /**
   * handleUpdate's `scrollto` rule; `top` is the current scroll position and
   * `height` the view's height. -1 means "do not scroll", as in the source.
   */
  function ScrollTarget(line: int, lineHeight: int, top: int, height: int): Option<int>
    requires lineHeight > 0
  {
    var value :=
      if line * lineHeight <= top then line * lineHeight
      else if (line + 1) * lineHeight > top + height then (line + 1) * lineHeight - height
      else -1;
    if value != -1 then Some(value) else None
  }

  /** The three outcomes: to the top, to the bottom, or no scroll. -1 cannot be a real target here. */
  lemma ScrollTargetCases(line: int, lineHeight: int, top: int, height: int)
    requires lineHeight > 0 && line >= 0 && top >= 0
    ensures line * lineHeight <= top ==> ScrollTarget(line, lineHeight, top, height) == Some(line * lineHeight)
    ensures line * lineHeight > top && (line + 1) * lineHeight > top + height ==>
      ScrollTarget(line, lineHeight, top, height) == Some((line + 1) * lineHeight - height)
    ensures line * lineHeight > top && (line + 1) * lineHeight <= top + height ==>
      ScrollTarget(line, lineHeight, top, height) == None
  {
    assert line * lineHeight >= 0;
  }

  /** After scrolling to the target, or when there is none, the whole line is in the viewport. */
  lemma ScrollTargetShowsLine(line: int, lineHeight: int, top: int, height: int)
    requires lineHeight > 0 && line >= 0 && top >= 0 && lineHeight <= height
    ensures var r := ScrollTarget(line, lineHeight, top, height);
      var newTop := if r.Some? then r.value else top;
      newTop <= line * lineHeight && (line + 1) * lineHeight <= newTop + height
  {
    ScrollTargetCases(line, lineHeight, top, height);
    assert (line + 1) * lineHeight == line * lineHeight + lineHeight;
  }

  // ---- onKeyDown ----

  const KeycodeDpadUp := 19
  const KeycodeDpadDown := 20
  const KeycodeDpadLeft := 21
  const KeycodeDpadRight := 22
  const KeycodeTab := 61
  const KeycodeEnter := 66
  const KeycodeDel := 67
  const KeycodePageUp := 92
  const KeycodePageDown := 93
  const KeycodeForwardDel := 112

  const ShiftSuffix := "_and_modify_selection"

  /** The keys whose command takes the shift suffix, with the base command. */
  function MovementCommand(keyCode: int): Option<string> {
    if keyCode == KeycodeDpadUp then Some("move_up")
    else if keyCode == KeycodeDpadRight then Some("move_right")
    else if keyCode == KeycodeDpadDown then Some("move_down")
    else if keyCode == KeycodeDpadLeft then Some("move_left")
    else if keyCode == KeycodePageUp then Some("page_up")
    else if keyCode == KeycodePageDown then Some("page_down")
    else None
  }

  /** The keys whose command ignores shift. */
  function EditingCommand(keyCode: int): Option<string> {
    if keyCode == KeycodeEnter then Some("insert_newline")
    else if keyCode == KeycodeDel then Some("delete_backward")
    else if keyCode == KeycodeForwardDel then Some("delete_forward")
    else if keyCode == KeycodeTab then Some("insert_tab")
    else None
  }

  /** The switch of onKeyDown; `shift` is event.hasModifiers(META_SHIFT_ON). */
  function KeyCommand(keyCode: int, shift: bool): (r: Option<string>)
    ensures MovementCommand(keyCode).Some? ==>
      r == Some(MovementCommand(keyCode).value + (if shift then ShiftSuffix else ""))
    ensures EditingCommand(keyCode).Some? ==> r == EditingCommand(keyCode)
    ensures r.None? <==> MovementCommand(keyCode).None? && EditingCommand(keyCode).None?
  {
    var suffix := if shift then ShiftSuffix else "";
    if keyCode == KeycodeEnter then Some("insert_newline")
    else if keyCode == KeycodeDel then Some("delete_backward")
    else if keyCode == KeycodeForwardDel then Some("delete_forward")
    else if keyCode == KeycodeTab then Some("insert_tab")
    else if keyCode == KeycodeDpadUp then Some("move_up" + suffix)
    else if keyCode == KeycodeDpadRight then Some("move_right" + suffix)
    else if keyCode == KeycodeDpadDown then Some("move_down" + suffix)
    else if keyCode == KeycodeDpadLeft then Some("move_left" + suffix)
    else if keyCode == KeycodePageUp then Some("page_up" + suffix)
    else if keyCode == KeycodePageDown then Some("page_down" + suffix)
    else None
  }

  // ---- onMeasure, height part ----

  datatype MeasureMode = Unspecified | Exactly | AtMost

  /** The height onMeasure settles on: all document lines, bounded by the spec and the minimum. */
  function MeasuredHeight(mode: MeasureMode, size: int, totalLines: int, lineHeight: int, minHeight: int): (h: int)
    ensures mode == Exactly ==> h == size
    ensures mode != Exactly ==> h >= minHeight
    ensures mode == AtMost && minHeight <= size ==> h <= size
    ensures mode == Unspecified ==> h == Max(totalLines * lineHeight, minHeight)
    ensures mode == AtMost ==> h == Max(Min(totalLines * lineHeight, size), minHeight)
  {
    if mode == Exactly then size
    else
      var h := totalLines * lineHeight;
      var h' := if mode == AtMost then Min(h, size) else h;
      Max(h', minHeight)
  }

  // ---- updateLines: installing a range of payloads into the slots ----

  /**
   * The slots, XiView.cursorLine and XiView.cursorText as updateLines leaves
   * them, and whether an exception no handler catches ended the app on the way.
   */
  datatype Installed = Installed(slots: seq<Option<StyledLine>>, cursorLine: int, cursorText: Option<StyledLine>,
                                 crashed: bool)

  /** The reconstruction of each line of a payload from an empty builder. */
  function Parsed(payload: seq<Json>): (rs: seq<LineResult>)
    ensures |rs| == |payload|
    decreases |payload|
  {
    if payload == [] then [] else [ParseLine(payload[0])] + Parsed(payload[1..])
  }

  /** Element k of Parsed is the reconstruction of payload line k. */
  lemma {:induction false} ParsedAt(payload: seq<Json>, k: int)
    requires 0 <= k < |payload|
    ensures Parsed(payload)[k] == ParseLine(payload[k])
    decreases k
  {
    if k > 0 {
      ParsedAt(payload[1..], k - 1);
      assert payload[1..][k - 1] == payload[k];
    }
  }

  /** Whether the reconstruction of document line j records a cursor; rs[k] is that of line f + k. */
  predicate SawCursor(f: int, rs: seq<LineResult>, j: int)
    requires f <= j < f + |rs|
  {
    rs[j - f].sawCursor
  }

  /** Whether document line j reconstructs without an exception. */
  predicate Builds(f: int, rs: seq<LineResult>, j: int)
    requires f <= j < f + |rs|
  {
    rs[j - f].Built?
  }

  /** The reconstruction of document line j from a builder holding nothing. */
  function BuiltLine(f: int, rs: seq<LineResult>, j: int): StyledLine
    requires f <= j < f + |rs| && Builds(f, rs, j)
  {
    rs[j - f].line
  }

  /** What the builder holds after a line: with `carry` the line's spans and marks stay, without it nothing does. */
  function Next(left: Leftover, l: StyledLine, carry: bool): Leftover {
    if carry then After(left, l) else left
  }

  /**
   * The leftovers in the builder when document line j is appended, the loop
   * having started at line lo with `left` in the builder.
   */
  function Carried(left: Leftover, f: int, rs: seq<LineResult>, carry: bool, lo: int, j: int): Leftover
    requires f <= lo && (j <= lo || j <= f + |rs|)
    decreases j - lo
  {
    if j <= lo then left
    else
      match rs[lo - f]
      case Built(l, _) => Carried(Next(left, l, carry), f, rs, carry, lo + 1, j)
      case _ => left
  }

  /** Document line j as it reaches its slot when the loop started at line lo with `left` in the builder. */
  function Shown(left: Leftover, f: int, rs: seq<LineResult>, carry: bool, lo: int, j: int): StyledLine
    requires f <= lo <= j < f + |rs| && Builds(f, rs, j)
  {
    WithLeftover(BuiltLine(f, rs, j), Carried(left, f, rs, carry, lo, j))
  }

  /**
   * The loop of updateLines from document line i on, `left` in the builder:
   * each line that builds fills slot i - winFirst; a line recording a cursor
   * sets cursorLine to i - base (and cursorText when the line builds); the
   * first line that does not build stops the loop with the earlier slots
   * already written, by a JSONException or by a crash. `base` is the
   * document line cursorLine counts from; `carry` says whether the builder
   * keeps spans and selection marks from one line to the next.
   */
  function InstallFrom(acc: Installed, left: Leftover, winFirst: int, f: int, rs: seq<LineResult>,
                       base: int, carry: bool, i: int, end: int): (r: Installed)
    requires f <= i && winFirst <= i
    requires end <= f + |rs| && end <= winFirst + |acc.slots|
    ensures |r.slots| == |acc.slots|
    decreases end - i
  {
    if i >= end then acc
    else
      match rs[i - f]
      case Failed(saw) => acc.(cursorLine := if saw then i - base else acc.cursorLine)
      case Crashed(saw) => acc.(cursorLine := if saw then i - base else acc.cursorLine, crashed := true)
      case Built(l, saw) =>
        var shown := WithLeftover(l, left);
        InstallFrom(Installed(acc.slots[i - winFirst := Some(shown)],
                              if saw then i - base else acc.cursorLine,
                              if saw then Some(shown) else acc.cursorText, acc.crashed),
                    Next(left, l, carry), winFirst, f, rs, base, carry, i + 1, end)
  }

  /**
   * XiView.updateLines(f, payload) as written, on a window whose first line
   * is winFirst: lines start..end-1 go through one shared builder, and
   * cursorLine counts from start, the first installed line.
   */
  function InstallLines(slots: seq<Option<StyledLine>>, cursorText: Option<StyledLine>,
                        winFirst: int, f: int, payload: seq<Json>): Installed
  {
    var start := Max(winFirst, f);
    var end := Min(winFirst + |slots|, f + |payload|);
    InstallFrom(Installed(slots, -1, cursorText, false), NoLeftover, winFirst, f, Parsed(payload), start, true, start, end)
  }

  /**
   * updateLines as evidently intended: each line built from an empty builder,
   * and cursorLine counted from the window's first line, the slot index that
   * onDraw and onScrollChanged treat it as.
   */
  function InstallLinesCorrected(slots: seq<Option<StyledLine>>, cursorText: Option<StyledLine>,
                                 winFirst: int, f: int, payload: seq<Json>): Installed
  {
    var start := Max(winFirst, f);
    var end := Min(winFirst + |slots|, f + |payload|);
    InstallFrom(Installed(slots, -1, cursorText, false), NoLeftover, winFirst, f, Parsed(payload), winFirst, false, start, end)
  }

  /** The first document line in [i, end) that does not build, or max(i, end). */
  function FirstFailure(f: int, rs: seq<LineResult>, i: int, end: int): (j: int)
    requires f <= i && end <= f + |rs|
    ensures j == Max(i, end) || (i <= j < end && !Builds(f, rs, j))
    ensures forall k :: i <= k < j ==> k < end && Builds(f, rs, k)
    decreases end - i
  {
    if i >= end then i
    else if !rs[i - f].Built? then i
    else FirstFailure(f, rs, i + 1, end)
  }

  /** The lines whose cursor flag takes effect: the built prefix and the failing line, if any. */
  function Processed(f: int, rs: seq<LineResult>, i: int, end: int): (p: int)
    requires f <= i && end <= f + |rs|
    ensures p == i || i < p <= end
  {
    var j := FirstFailure(f, rs, i, end);
    if j < end then j + 1 else j
  }

  /** Reference definition: the last document line in [lo, hi) that records a cursor. */
  function LastCursor(f: int, rs: seq<LineResult>, lo: int, hi: int): (r: Option<int>)
    requires f <= lo && (hi <= lo || hi <= f + |rs|)
    ensures r.Some? ==> lo <= r.value < hi && SawCursor(f, rs, r.value)
    ensures r.Some? ==> forall j :: r.value < j < hi ==> !SawCursor(f, rs, j)
    ensures r.None? ==> forall j :: lo <= j < hi ==> !SawCursor(f, rs, j)
    decreases hi - lo
  {
    if hi <= lo then None
    else if SawCursor(f, rs, hi - 1) then Some(hi - 1)
    else LastCursor(f, rs, lo, hi - 1)
  }

  /** LastCursor peeled from the bottom instead of the top. */
  lemma {:induction false} LastCursorFromBottom(f: int, rs: seq<LineResult>, lo: int, hi: int)
    requires f <= lo < hi <= f + |rs|
    ensures LastCursor(f, rs, lo, hi) ==
      if LastCursor(f, rs, lo + 1, hi).Some? then LastCursor(f, rs, lo + 1, hi)
      else if SawCursor(f, rs, lo) then Some(lo) else None
    decreases hi - lo
  {
    if hi - 1 > lo && !SawCursor(f, rs, hi - 1) {
      LastCursorFromBottom(f, rs, lo, hi - 1);
    }
  }

  /** The step InstallFrom takes from a line that builds. */
  function StepAcc(acc: Installed, left: Leftover, l: StyledLine, saw: bool, winFirst: int, base: int, i: int): Installed
    requires 0 <= i - winFirst < |acc.slots|
  {
    var shown := WithLeftover(l, left);
    Installed(acc.slots[i - winFirst := Some(shown)],
              if saw then i - base else acc.cursorLine,
              if saw then Some(shown) else acc.cursorText, acc.crashed)
  }

  /** A line that builds is installed and the loop moves on to the next one. */
  lemma InstallFromStep(acc: Installed, left: Leftover, winFirst: int, f: int, rs: seq<LineResult>,
                        base: int, carry: bool, i: int, end: int)
    requires f <= i && winFirst <= i < end
    requires end <= f + |rs| && end <= winFirst + |acc.slots|
    requires Builds(f, rs, i)
    ensures InstallFrom(acc, left, winFirst, f, rs, base, carry, i, end)
         == InstallFrom(StepAcc(acc, left, BuiltLine(f, rs, i), SawCursor(f, rs, i), winFirst, base, i),
                        Next(left, BuiltLine(f, rs, i), carry), winFirst, f, rs, base, carry, i + 1, end)
  {
  }

  /** Past a line that builds, the first failure is the same whether counted from it or from the next line. */
  lemma FirstFailureStep(f: int, rs: seq<LineResult>, i: int, end: int)
    requires f <= i < end <= f + |rs| && Builds(f, rs, i)
    ensures FirstFailure(f, rs, i, end) == FirstFailure(f, rs, i + 1, end)
  {
  }

  /** Past a line that builds, the leftovers line j meets are those the next line starts from. */
  lemma CarriedStep(left: Leftover, f: int, rs: seq<LineResult>, carry: bool, i: int, j: int)
    requires f <= i < j <= f + |rs| && Builds(f, rs, i)
    ensures Carried(left, f, rs, carry, i, j)
         == Carried(Next(left, BuiltLine(f, rs, i), carry), f, rs, carry, i + 1, j)
  {
  }

  /** Slot k after the loop from i: the built prefix is written, with the leftovers of the lines before it; everything else is kept. */
  lemma {:induction false} InstallFromSlot(acc: Installed, left: Leftover, winFirst: int, f: int, rs: seq<LineResult>,
                                           base: int, carry: bool, i: int, end: int, k: int)
    requires f <= i && winFirst <= i
    requires end <= f + |rs| && end <= winFirst + |acc.slots|
    requires 0 <= k < |acc.slots|
    ensures InstallFrom(acc, left, winFirst, f, rs, base, carry, i, end).slots[k] ==
      if i <= winFirst + k < FirstFailure(f, rs, i, end)
      then Some(Shown(left, f, rs, carry, i, winFirst + k)) else acc.slots[k]
    decreases end - i
  {
    if i < end && Builds(f, rs, i) {
      var l := BuiltLine(f, rs, i);
      var saw := SawCursor(f, rs, i);
      var acc' := StepAcc(acc, left, l, saw, winFirst, base, i);
      InstallFromStep(acc, left, winFirst, f, rs, base, carry, i, end);
      InstallFromSlot(acc', Next(left, l, carry), winFirst, f, rs, base, carry, i + 1, end, k);
      FirstFailureStep(f, rs, i, end);
      if i < winFirst + k < FirstFailure(f, rs, i, end) {
        CarriedStep(left, f, rs, carry, i, winFirst + k);
      }
    }
  }

  /** cursorLine after the loop from i follows the last line that recorded a cursor, the failing one included. */
  lemma {:induction false} InstallFromCursorLine(acc: Installed, left: Leftover, winFirst: int, f: int, rs: seq<LineResult>,
                                                 base: int, carry: bool, i: int, end: int)
    requires f <= i && winFirst <= i
    requires end <= f + |rs| && end <= winFirst + |acc.slots|
    ensures var c := LastCursor(f, rs, i, Processed(f, rs, i, end));
      InstallFrom(acc, left, winFirst, f, rs, base, carry, i, end).cursorLine
        == (if c.Some? then c.value - base else acc.cursorLine)
    decreases end - i
  {
    if i < end && Builds(f, rs, i) {
      var l := BuiltLine(f, rs, i);
      var saw := SawCursor(f, rs, i);
      var acc' := StepAcc(acc, left, l, saw, winFirst, base, i);
      InstallFromStep(acc, left, winFirst, f, rs, base, carry, i, end);
      InstallFromCursorLine(acc', Next(left, l, carry), winFirst, f, rs, base, carry, i + 1, end);
      assert Processed(f, rs, i, end) == Processed(f, rs, i + 1, end);
      LastCursorFromBottom(f, rs, i, Processed(f, rs, i, end));
    }
  }

  /** cursorText after the loop from i follows the last built line that recorded a cursor. */
  lemma {:induction false} InstallFromCursorText(acc: Installed, left: Leftover, winFirst: int, f: int, rs: seq<LineResult>,
                                                 base: int, carry: bool, i: int, end: int)
    requires f <= i && winFirst <= i
    requires end <= f + |rs| && end <= winFirst + |acc.slots|
    ensures var t := LastCursor(f, rs, i, FirstFailure(f, rs, i, end));
      InstallFrom(acc, left, winFirst, f, rs, base, carry, i, end).cursorText
        == (if t.Some? then Some(Shown(left, f, rs, carry, i, t.value)) else acc.cursorText)
    decreases end - i
  {
    if i < end && Builds(f, rs, i) {
      var l := BuiltLine(f, rs, i);
      var saw := SawCursor(f, rs, i);
      var acc' := StepAcc(acc, left, l, saw, winFirst, base, i);
      InstallFromStep(acc, left, winFirst, f, rs, base, carry, i, end);
      var ff := FirstFailure(f, rs, i, end);
      FirstFailureStep(f, rs, i, end);
      InstallFromCursorText(acc', Next(left, l, carry), winFirst, f, rs, base, carry, i + 1, end);
      LastCursorFromBottom(f, rs, i, ff);
      var t' := LastCursor(f, rs, i + 1, ff);
      if t'.Some? {
        CarriedStep(left, f, rs, carry, i, t'.value);
      } else if saw {
        assert LastCursor(f, rs, i, ff) == Some(i);
        assert Shown(left, f, rs, carry, i, i) == WithLeftover(l, left);
      }
    }
  }

  /** The loop from i crashes exactly when the first line that does not build crashes. */
  lemma {:induction false} InstallFromCrash(acc: Installed, left: Leftover, winFirst: int, f: int, rs: seq<LineResult>,
                                            base: int, carry: bool, i: int, end: int)
    requires f <= i && winFirst <= i
    requires end <= f + |rs| && end <= winFirst + |acc.slots|
    ensures var ff := FirstFailure(f, rs, i, end);
      InstallFrom(acc, left, winFirst, f, rs, base, carry, i, end).crashed
        == (acc.crashed || (ff < end && rs[ff - f].Crashed?))
    decreases end - i
  {
    if i < end && Builds(f, rs, i) {
      var l := BuiltLine(f, rs, i);
      var saw := SawCursor(f, rs, i);
      var acc' := StepAcc(acc, left, l, saw, winFirst, base, i);
      InstallFromStep(acc, left, winFirst, f, rs, base, carry, i, end);
      InstallFromCrash(acc', Next(left, l, carry), winFirst, f, rs, base, carry, i + 1, end);
      FirstFailureStep(f, rs, i, end);
    }
  }

  /** Without carrying, the builder holds the same leftovers for every line. */
  lemma {:induction false} CarriedWithoutCarry(left: Leftover, f: int, rs: seq<LineResult>, lo: int, j: int)
    requires f <= lo && (j <= lo || j <= f + |rs|)
    ensures Carried(left, f, rs, false, lo, j) == left
    decreases j - lo
  {
    if j > lo && rs[lo - f].Built? {
      CarriedWithoutCarry(left, f, rs, lo + 1, j);
    }
  }

  /**
   * With carrying, every colour and mark in the builder stays there, and each
   * built line between lo and j adds its own colours and its selection marks.
   */
  lemma {:induction false} CarriedAccumulates(left: Leftover, f: int, rs: seq<LineResult>, lo: int, i: int, j: int)
    requires f <= lo && j <= f + |rs|
    requires forall m :: lo <= m < j ==> Builds(f, rs, m)
    ensures forall c :: c in left.colors ==> c in Carried(left, f, rs, true, lo, j).colors
    ensures left.marked ==> Carried(left, f, rs, true, lo, j).marked
    ensures lo <= i < j ==>
      && (forall c :: c in Colors(BuiltLine(f, rs, i).spans) ==> c in Carried(left, f, rs, true, lo, j).colors)
      && (BuiltLine(f, rs, i).selection.Some? ==> Carried(left, f, rs, true, lo, j).marked)
    decreases j - lo
  {
    if j > lo {
      var l := BuiltLine(f, rs, lo);
      var left' := Next(left, l, true);
      assert Carried(left, f, rs, true, lo, j) == Carried(left', f, rs, true, lo + 1, j);
      CarriedAccumulates(left', f, rs, lo + 1, i, j);
      assert left'.colors == left.colors + Colors(l.spans);
    }
  }

  // ---- updateLines as written: what the view does ----

  /**
   * updateLines writes slot k exactly when its document line lies in the
   * intersection of the window and the payload range and every line before
   * it in that intersection built; the line arrives with the leftovers of
   * the lines installed before it. All other slots keep their contents.
   */
  lemma InstallLinesSlots(slots: seq<Option<StyledLine>>, cursorText: Option<StyledLine>,
                          winFirst: int, f: int, payload: seq<Json>, k: int)
    requires 0 <= k < |slots|
    ensures var start := Max(winFirst, f);
      var end := Min(winFirst + |slots|, f + |payload|);
      var r := InstallLines(slots, cursorText, winFirst, f, payload);
      |r.slots| == |slots| &&
      r.slots[k] == if start <= winFirst + k < FirstFailure(f, Parsed(payload), start, end)
                    then Some(Shown(NoLeftover, f, Parsed(payload), true, start, winFirst + k)) else slots[k]
  {
    var start := Max(winFirst, f);
    var end := Min(winFirst + |slots|, f + |payload|);
    InstallFromSlot(Installed(slots, -1, cursorText, false), NoLeftover, winFirst, f, Parsed(payload), start, true, start, end, k);
  }

  /** Slots whose document line is outside the payload range are left as they were. */
  lemma InstallLinesOutside(slots: seq<Option<StyledLine>>, cursorText: Option<StyledLine>,
                            winFirst: int, f: int, payload: seq<Json>, k: int)
    requires 0 <= k < |slots|
    requires winFirst + k < f || f + |payload| <= winFirst + k
    ensures InstallLines(slots, cursorText, winFirst, f, payload).slots[k] == slots[k]
  {
    InstallLinesSlots(slots, cursorText, winFirst, f, payload, k);
  }

  /**
   * When every payload line builds, each slot in the intersection holds its
   * line, the first installed one exactly as its payload describes it.
   */
  lemma InstallLinesAllBuilt(slots: seq<Option<StyledLine>>, cursorText: Option<StyledLine>,
                             winFirst: int, f: int, payload: seq<Json>, k: int)
    requires forall j :: 0 <= j < |payload| ==> Parsed(payload)[j].Built?
    requires 0 <= k < |slots| && f <= winFirst + k < f + |payload|
    ensures var start := Max(winFirst, f);
      InstallLines(slots, cursorText, winFirst, f, payload).slots[k]
        == Some(Shown(NoLeftover, f, Parsed(payload), true, start, winFirst + k))
    ensures winFirst + k == Max(winFirst, f) ==>
      InstallLines(slots, cursorText, winFirst, f, payload).slots[k] == Some(Parsed(payload)[winFirst + k - f].line)
  {
    AllBuiltFrom(slots, cursorText, winFirst, f, Parsed(payload), Max(winFirst, f), Min(winFirst + |slots|, f + |payload|), k);
  }

  /** The same for any sequence of reconstructions that all build. */
  lemma AllBuiltFrom(slots: seq<Option<StyledLine>>, cursorText: Option<StyledLine>,
                     winFirst: int, f: int, rs: seq<LineResult>, start: int, end: int, k: int)
    requires start == Max(winFirst, f) && end == Min(winFirst + |slots|, f + |rs|)
    requires forall j :: 0 <= j < |rs| ==> rs[j].Built?
    requires 0 <= k < |slots| && f <= winFirst + k < f + |rs|
    ensures var r := InstallFrom(Installed(slots, -1, cursorText, false), NoLeftover, winFirst, f, rs, start, true, start, end);
      && r.slots[k] == Some(Shown(NoLeftover, f, rs, true, start, winFirst + k))
      && (winFirst + k == start ==> r.slots[k] == Some(rs[winFirst + k - f].line))
  {
    assert forall j :: start <= j < end ==> Builds(f, rs, j);
    InstallFromSlot(Installed(slots, -1, cursorText, false), NoLeftover, winFirst, f, rs, start, true, start, end, k);
    NoLeftoverKeepsLine(BuiltLine(f, rs, winFirst + k));
  }

  /** Installing the same payload twice leaves the same slots as installing it once. */
  lemma InstallLinesIdempotent(slots: seq<Option<StyledLine>>, cursorText: Option<StyledLine>,
                               winFirst: int, f: int, payload: seq<Json>)
    ensures var r := InstallLines(slots, cursorText, winFirst, f, payload);
      InstallLines(r.slots, r.cursorText, winFirst, f, payload).slots == r.slots
  {
    var r := InstallLines(slots, cursorText, winFirst, f, payload);
    var r2 := InstallLines(r.slots, r.cursorText, winFirst, f, payload);
    forall k | 0 <= k < |slots|
      ensures r2.slots[k] == r.slots[k]
    {
      InstallLinesSlots(slots, cursorText, winFirst, f, payload, k);
      InstallLinesSlots(r.slots, r.cursorText, winFirst, f, payload, k);
    }
  }

  /**
   * After updateLines, cursorLine is -1 or the offset from the first
   * installed line of the last line that recorded a cursor, the failing line
   * included; cursorText is that line as installed when it built, and is
   * kept when no built line has a cursor.
   */
  lemma InstallLinesCursor(slots: seq<Option<StyledLine>>, cursorText: Option<StyledLine>,
                           winFirst: int, f: int, payload: seq<Json>)
    ensures var start := Max(winFirst, f);
      var end := Min(winFirst + |slots|, f + |payload|);
      var r := InstallLines(slots, cursorText, winFirst, f, payload);
      var c := LastCursor(f, Parsed(payload), start, Processed(f, Parsed(payload), start, end));
      var t := LastCursor(f, Parsed(payload), start, FirstFailure(f, Parsed(payload), start, end));
      r.cursorLine == (if c.Some? then c.value - start else -1) &&
      r.cursorText == (if t.Some? then Some(Shown(NoLeftover, f, Parsed(payload), true, start, t.value)) else cursorText)
  {
    var start := Max(winFirst, f);
    var end := Min(winFirst + |slots|, f + |payload|);
    var acc := Installed(slots, -1, cursorText, false);
    InstallFromCursorLine(acc, NoLeftover, winFirst, f, Parsed(payload), start, true, start, end);
    InstallFromCursorText(acc, NoLeftover, winFirst, f, Parsed(payload), start, true, start, end);
  }

  /** cursorLine, when set, counts from the first installed line to a line that recorded a cursor. */
  lemma InstallLinesCursorInRange(slots: seq<Option<StyledLine>>, cursorText: Option<StyledLine>,
                                  winFirst: int, f: int, payload: seq<Json>)
    ensures var start := Max(winFirst, f);
      var end := Min(winFirst + |slots|, f + |payload|);
      var r := InstallLines(slots, cursorText, winFirst, f, payload);
      r.cursorLine != -1 ==>
        && 0 <= r.cursorLine < end - start
        && SawCursor(f, Parsed(payload), start + r.cursorLine)
  {
    CursorInRangeFrom(slots, cursorText, winFirst, f, Parsed(payload), Max(winFirst, f), Min(winFirst + |slots|, f + |payload|));
  }

  /** The same for any sequence of reconstructions, installed as updateLines does. */
  lemma CursorInRangeFrom(slots: seq<Option<StyledLine>>, cursorText: Option<StyledLine>,
                          winFirst: int, f: int, rs: seq<LineResult>, start: int, end: int)
    requires start == Max(winFirst, f) && end == Min(winFirst + |slots|, f + |rs|)
    ensures var r := InstallFrom(Installed(slots, -1, cursorText, false), NoLeftover, winFirst, f, rs, start, true, start, end);
      r.cursorLine != -1 ==>
        && 0 <= r.cursorLine < end - start
        && SawCursor(f, rs, start + r.cursorLine)
  {
    var acc := Installed(slots, -1, cursorText, false);
    var r := InstallFrom(acc, NoLeftover, winFirst, f, rs, start, true, start, end);
    InstallFromCursorLine(acc, NoLeftover, winFirst, f, rs, start, true, start, end);
    CursorOffsetInRange(f, rs, start, end, r.cursorLine);
  }

  /** An offset from start to the last cursor of the processed lines lies in [0, end - start). */
  lemma CursorOffsetInRange(f: int, rs: seq<LineResult>, start: int, end: int, cursorLine: int)
    requires f <= start && end <= f + |rs|
    requires var c := LastCursor(f, rs, start, Processed(f, rs, start, end));
      cursorLine == (if c.Some? then c.value - start else -1)
    ensures cursorLine != -1 ==> 0 <= cursorLine < end - start && SawCursor(f, rs, start + cursorLine)
  {
  }

  /**
   * updateLines ends the app exactly when the first line of the intersection
   * that does not build crashes: an offset outside its text.
   */
  lemma InstallLinesCrash(slots: seq<Option<StyledLine>>, cursorText: Option<StyledLine>,
                          winFirst: int, f: int, payload: seq<Json>)
    ensures var start := Max(winFirst, f);
      var end := Min(winFirst + |slots|, f + |payload|);
      var ff := FirstFailure(f, Parsed(payload), start, end);
      InstallLines(slots, cursorText, winFirst, f, payload).crashed <==>
        ff < end && ParseLine(payload[ff - f]).Crashed?
  {
    var start := Max(winFirst, f);
    var end := Min(winFirst + |slots|, f + |payload|);
    InstallFromCrash(Installed(slots, -1, cursorText, false), NoLeftover, winFirst, f, Parsed(payload), start, true, start, end);
    var ff := FirstFailure(f, Parsed(payload), start, end);
    if ff < end {
      ParsedAt(payload, ff - f);
    }
  }

  /**
   * A line installed after others in the same update carries, over its
   * whole text, a span of every colour those lines set, and when it has no
   * selection of its own it gets the caret at its end as soon as one of them
   * had a selection.
   */
  lemma InstallLinesCarriesEarlierLines(f: int, payload: seq<Json>, start: int, i: int, j: int)
    requires f <= start <= i < j < f + |payload|
    requires forall m :: start <= m <= j ==> Builds(f, Parsed(payload), m)
    ensures var shown := Shown(NoLeftover, f, Parsed(payload), true, start, j);
      var n := Utf16Length(BuiltLine(f, Parsed(payload), j).text);
      && shown.text == BuiltLine(f, Parsed(payload), j).text
      && (forall c :: c in Colors(BuiltLine(f, Parsed(payload), i).spans) ==> Span(0, n, c) in shown.spans)
      && (BuiltLine(f, Parsed(payload), i).selection.Some? && BuiltLine(f, Parsed(payload), j).selection.None? ==>
            shown.selection == Some((n, n)))
  {
    var l := BuiltLine(f, Parsed(payload), j);
    var left := Carried(NoLeftover, f, Parsed(payload), true, start, j);
    CarriedAccumulates(NoLeftover, f, Parsed(payload), start, i, j);
    LeftoverWidensOverLine(l, left);
    forall c | c in Colors(BuiltLine(f, Parsed(payload), i).spans)
      ensures Span(0, Utf16Length(l.text), c) in WithLeftover(l, left).spans
    {
      var k :| 0 <= k < |left.colors| && left.colors[k] == c;
      assert WithLeftover(l, left).spans[k] == Span(0, Utf16Length(l.text), c);
    }
  }

  // ---- updateLines as intended ----

  /** Without the shared builder every installed slot holds exactly the line its payload describes. */
  lemma CorrectedSlotsFresh(slots: seq<Option<StyledLine>>, cursorText: Option<StyledLine>,
                            winFirst: int, f: int, payload: seq<Json>, k: int)
    requires 0 <= k < |slots|
    ensures var start := Max(winFirst, f);
      var end := Min(winFirst + |slots|, f + |payload|);
      var r := InstallLinesCorrected(slots, cursorText, winFirst, f, payload);
      |r.slots| == |slots| &&
      r.slots[k] == if start <= winFirst + k < FirstFailure(f, Parsed(payload), start, end)
                    then Some(BuiltLine(f, Parsed(payload), winFirst + k)) else slots[k]
  {
    var start := Max(winFirst, f);
    var end := Min(winFirst + |slots|, f + |payload|);
    InstallFromSlot(Installed(slots, -1, cursorText, false), NoLeftover, winFirst, f, Parsed(payload), winFirst, false, start, end, k);
    if start <= winFirst + k < FirstFailure(f, Parsed(payload), start, end) {
      CarriedWithoutCarry(NoLeftover, f, Parsed(payload), start, winFirst + k);
      NoLeftoverKeepsLine(BuiltLine(f, Parsed(payload), winFirst + k));
    }
  }

  /** Corrected cursorLine and cursorText: the slot of the last line that recorded a cursor, and that line. */
  lemma CorrectedCursor(slots: seq<Option<StyledLine>>, cursorText: Option<StyledLine>,
                        winFirst: int, f: int, payload: seq<Json>)
    ensures var start := Max(winFirst, f);
      var end := Min(winFirst + |slots|, f + |payload|);
      var r := InstallLinesCorrected(slots, cursorText, winFirst, f, payload);
      var c := LastCursor(f, Parsed(payload), start, Processed(f, Parsed(payload), start, end));
      var t := LastCursor(f, Parsed(payload), start, FirstFailure(f, Parsed(payload), start, end));
      r.cursorLine == (if c.Some? then c.value - winFirst else -1) &&
      r.cursorText == (if t.Some? then Some(BuiltLine(f, Parsed(payload), t.value)) else cursorText)
  {
    var start := Max(winFirst, f);
    var end := Min(winFirst + |slots|, f + |payload|);
    var acc := Installed(slots, -1, cursorText, false);
    InstallFromCursorLine(acc, NoLeftover, winFirst, f, Parsed(payload), winFirst, false, start, end);
    InstallFromCursorText(acc, NoLeftover, winFirst, f, Parsed(payload), winFirst, false, start, end);
    var t := LastCursor(f, Parsed(payload), start, FirstFailure(f, Parsed(payload), start, end));
    if t.Some? {
      CarriedWithoutCarry(NoLeftover, f, Parsed(payload), start, t.value);
      NoLeftoverKeepsLine(BuiltLine(f, Parsed(payload), t.value));
    }
  }

  /** Corrected cursorLine, when set, names a slot of the window whose line recorded a cursor. */
  lemma CorrectedCursorInWindow(slots: seq<Option<StyledLine>>, cursorText: Option<StyledLine>,
                                winFirst: int, f: int, payload: seq<Json>)
    ensures var start := Max(winFirst, f);
      var end := Min(winFirst + |slots|, f + |payload|);
      var r := InstallLinesCorrected(slots, cursorText, winFirst, f, payload);
      r.cursorLine != -1 ==>
        && 0 <= r.cursorLine < |slots|
        && start <= winFirst + r.cursorLine < end
        && SawCursor(f, Parsed(payload), winFirst + r.cursorLine)
  {
    var start := Max(winFirst, f);
    var end := Min(winFirst + |slots|, f + |payload|);
    var r := InstallLinesCorrected(slots, cursorText, winFirst, f, payload);
    CorrectedCursor(slots, cursorText, winFirst, f, payload);
    var p := Processed(f, Parsed(payload), start, end);
    var c := LastCursor(f, Parsed(payload), start, p);
    if c.Some? {
      assert start <= c.value < p <= end <= winFirst + |slots|;
      assert winFirst + r.cursorLine == c.value;
      assert SawCursor(f, Parsed(payload), c.value);
    } else {
      assert r.cursorLine == -1;
    }
  }

  /** A cursor recorded before the first failing line is also the last one of the built prefix. */
  lemma LastCursorBeforeFailure(f: int, rs: seq<LineResult>, start: int, end: int)
    requires f <= start && end <= f + |rs|
    ensures var c := LastCursor(f, rs, start, Processed(f, rs, start, end));
      c.Some? && c.value < FirstFailure(f, rs, start, end) ==>
        LastCursor(f, rs, start, FirstFailure(f, rs, start, end)) == c
  {
  }

  /** Corrected: the slot cursorLine names holds cursorText whenever the cursor's line was built. */
  lemma CorrectedCursorSlot(slots: seq<Option<StyledLine>>, cursorText: Option<StyledLine>,
                            winFirst: int, f: int, payload: seq<Json>)
    ensures var start := Max(winFirst, f);
      var end := Min(winFirst + |slots|, f + |payload|);
      var r := InstallLinesCorrected(slots, cursorText, winFirst, f, payload);
      r.cursorLine != -1 && winFirst + r.cursorLine < FirstFailure(f, Parsed(payload), start, end) ==>
        0 <= r.cursorLine < |slots| && r.cursorText.Some? && r.slots[r.cursorLine] == r.cursorText
  {
    var start := Max(winFirst, f);
    var end := Min(winFirst + |slots|, f + |payload|);
    var r := InstallLinesCorrected(slots, cursorText, winFirst, f, payload);
    CorrectedCursorInWindow(slots, cursorText, winFirst, f, payload);
    CorrectedCursor(slots, cursorText, winFirst, f, payload);
    var c := LastCursor(f, Parsed(payload), start, Processed(f, Parsed(payload), start, end));
    var ff := FirstFailure(f, Parsed(payload), start, end);
    if c.Some? && c.value < ff {
      var k := c.value - winFirst;
      assert r.cursorLine == k && 0 <= k < |slots|;
      LastCursorBeforeFailure(f, Parsed(payload), start, end);
      assert r.cursorText == Some(BuiltLine(f, Parsed(payload), c.value));
      CorrectedSlotsFresh(slots, cursorText, winFirst, f, payload, k);
      assert start <= winFirst + k < ff;
      assert r.slots[k] == Some(BuiltLine(f, Parsed(payload), c.value));
    } else {
      assert r.cursorLine == -1 || winFirst + r.cursorLine >= ff;
    }
  }

  // ---- the two side by side ----

  /**
   * updateLines as written writes the same slots as the corrected version and
   * crashes on the same inputs; each written slot, and cursorText, is the
   * corrected line with the builder's leftovers added; cursorLine is off by
   * the distance from the window's first line to the first installed line.
   */
  lemma AsWrittenAgainstCorrected(slots: seq<Option<StyledLine>>, cursorText: Option<StyledLine>,
                                  winFirst: int, f: int, payload: seq<Json>)
    ensures var start := Max(winFirst, f);
      var end := Min(winFirst + |slots|, f + |payload|);
      var ff := FirstFailure(f, Parsed(payload), start, end);
      var t := LastCursor(f, Parsed(payload), start, ff);
      var r := InstallLinesCorrected(slots, cursorText, winFirst, f, payload);
      var w := InstallLines(slots, cursorText, winFirst, f, payload);
      && |w.slots| == |r.slots| == |slots|
      && (forall k :: 0 <= k < |slots| && !(start <= winFirst + k < ff) ==> w.slots[k] == r.slots[k])
      && (forall k :: 0 <= k < |slots| && start <= winFirst + k < ff ==>
            && r.slots[k].Some?
            && w.slots[k] == Some(WithLeftover(r.slots[k].value, Carried(NoLeftover, f, Parsed(payload), true, start, winFirst + k))))
      && (t.None? ==> w.cursorText == r.cursorText)
      && (t.Some? ==>
            && r.cursorText.Some?
            && w.cursorText == Some(WithLeftover(r.cursorText.value, Carried(NoLeftover, f, Parsed(payload), true, start, t.value))))
      && w.cursorLine == (if r.cursorLine == -1 then -1 else r.cursorLine - (start - winFirst))
      && w.crashed == r.crashed
  {
    AsWrittenSlotsAgainstCorrected(slots, cursorText, winFirst, f, payload);
    AsWrittenCursorAgainstCorrected(slots, cursorText, winFirst, f, payload);
    var start := Max(winFirst, f);
    var end := Min(winFirst + |slots|, f + |payload|);
    var acc := Installed(slots, -1, cursorText, false);
    InstallFromCrash(acc, NoLeftover, winFirst, f, Parsed(payload), start, true, start, end);
    InstallFromCrash(acc, NoLeftover, winFirst, f, Parsed(payload), winFirst, false, start, end);
  }

  /** The slot half of AsWrittenAgainstCorrected. */
  lemma AsWrittenSlotsAgainstCorrected(slots: seq<Option<StyledLine>>, cursorText: Option<StyledLine>,
                                       winFirst: int, f: int, payload: seq<Json>)
    ensures var start := Max(winFirst, f);
      var end := Min(winFirst + |slots|, f + |payload|);
      var ff := FirstFailure(f, Parsed(payload), start, end);
      var r := InstallLinesCorrected(slots, cursorText, winFirst, f, payload);
      var w := InstallLines(slots, cursorText, winFirst, f, payload);
      && |w.slots| == |r.slots| == |slots|
      && (forall k :: 0 <= k < |slots| && !(start <= winFirst + k < ff) ==> w.slots[k] == r.slots[k])
      && (forall k :: 0 <= k < |slots| && start <= winFirst + k < ff ==>
            && r.slots[k].Some?
            && w.slots[k] == Some(WithLeftover(r.slots[k].value, Carried(NoLeftover, f, Parsed(payload), true, start, winFirst + k))))
  {
    var start := Max(winFirst, f);
    var end := Min(winFirst + |slots|, f + |payload|);
    forall k | 0 <= k < |slots|
      ensures InstallLines(slots, cursorText, winFirst, f, payload).slots[k]
           == if start <= winFirst + k < FirstFailure(f, Parsed(payload), start, end)
              then Some(Shown(NoLeftover, f, Parsed(payload), true, start, winFirst + k)) else slots[k]
      ensures InstallLinesCorrected(slots, cursorText, winFirst, f, payload).slots[k]
           == if start <= winFirst + k < FirstFailure(f, Parsed(payload), start, end)
              then Some(BuiltLine(f, Parsed(payload), winFirst + k)) else slots[k]
    {
      InstallLinesSlots(slots, cursorText, winFirst, f, payload, k);
      CorrectedSlotsFresh(slots, cursorText, winFirst, f, payload, k);
    }
  }

  /** The cursor half of AsWrittenAgainstCorrected. */
  lemma AsWrittenCursorAgainstCorrected(slots: seq<Option<StyledLine>>, cursorText: Option<StyledLine>,
                                        winFirst: int, f: int, payload: seq<Json>)
    ensures var start := Max(winFirst, f);
      var end := Min(winFirst + |slots|, f + |payload|);
      var ff := FirstFailure(f, Parsed(payload), start, end);
      var t := LastCursor(f, Parsed(payload), start, ff);
      var r := InstallLinesCorrected(slots, cursorText, winFirst, f, payload);
      var w := InstallLines(slots, cursorText, winFirst, f, payload);
      && (t.None? ==> w.cursorText == r.cursorText)
      && (t.Some? ==>
            && r.cursorText.Some?
            && w.cursorText == Some(WithLeftover(r.cursorText.value, Carried(NoLeftover, f, Parsed(payload), true, start, t.value))))
      && w.cursorLine == (if r.cursorLine == -1 then -1 else r.cursorLine - (start - winFirst))
  {
    InstallLinesCursor(slots, cursorText, winFirst, f, payload);
    CorrectedCursor(slots, cursorText, winFirst, f, payload);
  }

  /**
   * An input on which updateLines as written misplaces the cursor: a
   * five-slot window at line 0 receives lines 3 and 4, the cursor on line 4.
   * cursorLine becomes 1, while slot 1 was not written and slot 4 holds the
   * line with the cursor.
   */
  lemma AsWrittenCursorMisplaced()
    ensures var slots: seq<Option<StyledLine>> := [None, None, None, None, None];
      var payload := [JArr([JStr("a")]), JArr([JStr("b"), JArr([JStr("cursor"), JInt(0)])])];
      var w := InstallLines(slots, None, 0, 3, payload);
      var r := InstallLinesCorrected(slots, None, 0, 3, payload);
      && w.cursorLine == 1 && w.slots[1] == None && w.cursorText.Some?
      && w.slots[w.cursorLine] != w.cursorText
      && r.cursorLine == 4 && r.slots[4] == r.cursorText
  {
    var slots: seq<Option<StyledLine>> := [None, None, None, None, None];
    var p0 := JArr([JStr("a")]);
    var p1 := JArr([JStr("b"), JArr([JStr("cursor"), JInt(0)])]);
    var payload := [p0, p1];
    var rs := Parsed(payload);
    var l0 := StyledLine("a", [], None);
    var l1 := StyledLine("b", [], Some((0, 0)));
    assert Utf16Length("a") == 1 && Utf16Length("b") == 1 by {
      assert "a"[1..] == [] && "b"[1..] == [];
    }
    assert ParseLine(p0) == Built(l0, false);
    assert ParseLine(p1) == Built(l1, true);
    assert Max(0, 3) == 3 && Min(0 + |slots|, 3 + |payload|) == 5;
    ParsedAt(payload, 0);
    ParsedAt(payload, 1);
    assert rs[3 - 3] == ParseLine(p0) && rs[4 - 3] == ParseLine(p1);
    NoLeftoverKeepsLine(l0);
    NoLeftoverKeepsLine(l1);
    assert After(NoLeftover, l0) == NoLeftover;
    var acc1 := Installed(slots[3 := Some(l0)], -1, None, false);
    var filled := slots[3 := Some(l0)][4 := Some(l1)];
    assert InstallFrom(Installed(slots, -1, None, false), NoLeftover, 0, 3, rs, 3, true, 3, 5)
        == InstallFrom(acc1, NoLeftover, 0, 3, rs, 3, true, 4, 5);
    assert InstallFrom(acc1, NoLeftover, 0, 3, rs, 3, true, 4, 5)
        == InstallFrom(Installed(filled, 1, Some(l1), false), After(NoLeftover, l1), 0, 3, rs, 3, true, 5, 5);
    assert InstallFrom(Installed(slots, -1, None, false), NoLeftover, 0, 3, rs, 0, false, 3, 5)
        == InstallFrom(acc1, NoLeftover, 0, 3, rs, 0, false, 4, 5);
    assert InstallFrom(acc1, NoLeftover, 0, 3, rs, 0, false, 4, 5)
        == InstallFrom(Installed(filled, 4, Some(l1), false), NoLeftover, 0, 3, rs, 0, false, 5, 5);
  }

  /**
   * An input on which the shared builder carries a line's colour and caret
   * into the next line: a two-slot window at line 0 receives "a", coloured
   * 255 with the caret at 1, then a plain "bb". The second slot shows "bb" in
   * colour 255 with a caret at 2; built on its own it has neither.
   */
  lemma AsWrittenSpansCarryOver()
    ensures var slots: seq<Option<StyledLine>> := [None, None];
      var payload := [JArr([JStr("a"), JArr([JStr("fg"), JInt(0), JInt(1), JInt(255), JInt(0)]),
                                      JArr([JStr("cursor"), JInt(1)])]),
                      JArr([JStr("bb")])];
      && InstallLines(slots, None, 0, 0, payload).slots[1] == Some(StyledLine("bb", [Span(0, 2, 255)], Some((2, 2))))
      && InstallLinesCorrected(slots, None, 0, 0, payload).slots[1] == Some(StyledLine("bb", [], None))
  {
    var slots: seq<Option<StyledLine>> := [None, None];
    var fg := JArr([JStr("fg"), JInt(0), JInt(1), JInt(255), JInt(0)]);
    var cur := JArr([JStr("cursor"), JInt(1)]);
    var p0 := JArr([JStr("a"), fg, cur]);
    var p1 := JArr([JStr("bb")]);
    var payload := [p0, p1];
    var rs := Parsed(payload);
    var l0 := StyledLine("a", [Span(0, 1, 255)], Some((1, 1)));
    var l1 := StyledLine("bb", [], None);
    assert Utf16Length("a") == 1 && Utf16Length("bb") == 2 by {
      assert "a"[1..] == [] && "bb"[1..] == "b" && "b"[1..] == [];
    }
    assert p0.elems[1..] == [fg, cur];
    assert [fg, cur][1..] == [cur] && [cur][1..] == [];
    var st1 := LineState(-1, -1, [Span(0, 1, 255)], false);
    assert IntAt(fg.elems, 3) == Some(255) && IntAt(fg.elems, 1) == Some(0) && IntAt(fg.elems, 2) == Some(1);
    assert ApplyAnnotation(Fresh, 1, fg) == Continue(st1);
    assert IntAt(cur.elems, 1) == Some(1);
    assert ApplyAnnotation(st1, 1, cur) == Continue(LineState(-1, 1, [Span(0, 1, 255)], true));
    var st2 := LineState(-1, 1, [Span(0, 1, 255)], true);
    assert RunAnnotations(st2, 1, []) == Continue(st2);
    assert RunAnnotations(st1, 1, [cur]) == RunAnnotations(st2, 1, []);
    assert RunAnnotations(Fresh, 1, [fg, cur]) == RunAnnotations(st1, 1, [cur]);
    assert RunAnnotations(Fresh, 1, [fg, cur]) == Continue(LineState(-1, 1, [Span(0, 1, 255)], true));
    assert ParseLine(p0) == Built(l0, true);
    assert p1.elems[1..] == [];
    assert ParseLine(p1) == Built(l1, false);
    assert Max(0, 0) == 0 && Min(0 + |slots|, 0 + |payload|) == 2;
    ParsedAt(payload, 0);
    ParsedAt(payload, 1);
    assert rs[0 - 0] == ParseLine(p0) && rs[1 - 0] == ParseLine(p1);
    forall carry: bool | true
      ensures var r := InstallFrom(Installed(slots, -1, None, false), NoLeftover, 0, 0, rs, 0, carry, 0, 2);
        r.slots[1] == Some(WithLeftover(l1, Next(NoLeftover, l0, carry)))
    {
      var acc1 := StepAcc(Installed(slots, -1, None, false), NoLeftover, l0, true, 0, 0, 0);
      assert InstallFrom(Installed(slots, -1, None, false), NoLeftover, 0, 0, rs, 0, carry, 0, 2)
          == InstallFrom(acc1, Next(NoLeftover, l0, carry), 0, 0, rs, 0, carry, 1, 2);
    }
    assert Colors(l0.spans) == [255];
    assert Next(NoLeftover, l0, true) == Leftover([255], true);
    assert Stretched([255], 2) == [Span(0, 2, 255)];
    assert WithLeftover(l1, Leftover([255], true)) == StyledLine("bb", [Span(0, 2, 255)], Some((2, 2)));
    NoLeftoverKeepsLine(l1);
  }
}
