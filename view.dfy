/**
 * XiView, the widget that shows one tab of xi-core: a window of line slots
 * starting at document line `firstLine`, filled from `update` notifications
 * and `render_lines` responses, moved by scrolling and resized with the view.
 */
module View {
  import opened Wrappers
  import opened Json
  import opened Lines
  import opened Viewport
  import opened Messages
  import opened Bridge

  /** The forward copy loop of onScrollChanged: slot k - d takes slot k, for k from d up. */
  method ShiftForward<T>(a: array<T>, d: int)
    requires d > 0
    modifies a
    ensures a[..] == Scrolled(old(a[..]), d)
  {
    var i := d;
    while i < a.Length
      invariant d <= i
      invariant i > a.Length ==> i == d
      invariant forall k :: 0 <= k < i - d ==> a[k] == old(a[k + d])
      invariant forall k :: i - d <= k < a.Length ==> a[k] == old(a[k])
    {
      a[i - d] := a[i];
      i := i + 1;
    }
  }

  /** The backward copy loop of onScrollChanged: slot k + d takes slot k, for k from len - d - 1 down. */
  method ShiftBackward<T>(a: array<T>, d: int)
    requires d > 0
    modifies a
    ensures a[..] == Scrolled(old(a[..]), -d)
  {
    var i := a.Length - d - 1;
    while i >= 0
      invariant -1 <= i || i == a.Length - d - 1
      invariant i <= a.Length - d - 1
      invariant forall k :: i + d < k < a.Length ==> a[k] == old(a[k - d])
      invariant forall k :: 0 <= k <= i + d ==> a[k] == old(a[k])
    {
      a[i + d] := a[i];
      i := i - 1;
    }
  }

  /** Arrays.copyOf: a fresh array of length n with the common prefix copied and the rest None. */
  method CopyOf<T>(src: array<Option<T>>, n: nat) returns (a: array<Option<T>>)
    ensures fresh(a) && a.Length == n
    ensures forall k :: 0 <= k < n ==> a[k] == if k < src.Length then src[k] else None
  {
    a := new Option<T>[n](_ => None);
    var m := Min(src.Length, n);
    var i := 0;
    while i < m
      invariant 0 <= i <= m
      invariant forall k :: 0 <= k < n ==> a[k] == if k < i then src[k] else None
    {
      a[i] := src[i];
      i := i + 1;
    }
  }

  /**
   * The loop of updateLines on the slot array of a window starting at
   * winFirst. `left` is what the one SpannableStringBuilder of the loop holds
   * once cleared; a line is built on top of it and copied out with it.
   */
  method InstallInto(lines: array<Option<StyledLine>>, text: Option<StyledLine>, winFirst: int, f: int, payload: seq<Json>)
    returns (cursorLine: int, cursorText: Option<StyledLine>, crashed: bool)
    modifies lines
    ensures var r := InstallLines(old(lines[..]), text, winFirst, f, payload);
      lines[..] == r.slots && cursorLine == r.cursorLine && cursorText == r.cursorText && crashed == r.crashed
  {
    var start := Max(winFirst, f);
    var end := Min(winFirst + lines.Length, f + |payload|);
    ghost var goal := InstallLines(lines[..], text, winFirst, f, payload);
    cursorLine := -1;
    cursorText := text;
    crashed := false;
    var left := NoLeftover;
    var i := start;
    while i < end
      invariant start <= i && (i <= end || i == start)
      invariant cursorLine < i - start
      invariant InstallFrom(Installed(lines[..], cursorLine, cursorText, false), left,
                            winFirst, f, Parsed(payload), start, true, i, end) == goal
    {
      ghost var acc := Installed(lines[..], cursorLine, cursorText, false);
      var r := BuildLine(payload[i - f]);
      ParsedAt(payload, i - f);
      if r.sawCursor {
        cursorLine := i - start;
      }
      if !r.Built? {
        crashed := r.Crashed?;
        assert goal == acc.(cursorLine := cursorLine, crashed := crashed);
        return;
      }
      var shown := WithLeftover(r.line, left);
      lines[i - winFirst] := Some(shown);
      assert lines[..] == acc.slots[i - winFirst := Some(shown)];
      if cursorLine == i - start {
        cursorText := Some(shown);
      }
      left := After(left, r.line);
      i := i + 1;
    }
  }

  /** What onScrollChanged sends when the window top moves from prev to next: the exposed lines' request, then the new window. */
  function ScrollMessages(id: int, tab: string, prev: int, next: int, len: int): seq<Outgoing>
    requires len > 0
  {
    var e := Exposed(prev, next, len);
    [RenderLinesCall(id, tab, e.0, e.1), ScrollEdit(tab, next, next + len)]
  }

  /** Whether handleUpdate gets past the height field: absent, or an int. */
  predicate HeightReadable(update: seq<Member>) {
    !Has(update, "height") || GetInt(update, "height").Some?
  }

  /** Two messages sent one after the other. */
  lemma AppendTwo<T>(s: seq<T>, a: T, b: T)
    ensures s + [a] + [b] == s + [a, b]
  {
  }

  /** The scroll position handleUpdate moves to for a `scrollto` hint, if any. */
  function ScrollRequest(update: seq<Member>, lineHeight: int, top: int, height: int): Option<int>
    requires lineHeight > 0
  {
    if Has(update, "scrollto") && ScrollLineOf(update).Some?
    then ScrollTarget(ScrollLineOf(update).value, lineHeight, top, height)
    else None
  }

  /** How onKeyDown disposed of a key. */
  datatype KeyResult = SentCommand(command: string) | Delegated

  /** The pair handleUpdate reads before installing lines: first_line and lines. */
  function LinesOf(update: seq<Member>): (r: Option<(int, seq<Json>)>)
    ensures r.Some? <==> GetInt(update, "first_line").Some? && GetArray(update, "lines").Some?
    ensures r.Some? ==> GetInt(update, "first_line") == Some(r.value.0) && GetArray(update, "lines") == Some(r.value.1)
  {
    match (GetInt(update, "first_line"), GetArray(update, "lines"))
    case (Some(f), Some(ls)) => Some((f, ls))
    case _ => None
  }

  /** The line handleUpdate is asked to scroll to: element 0 of the scrollto array. */
  function ScrollLineOf(update: seq<Member>): (r: Option<int>)
    ensures r.Some? <==> GetArray(update, "scrollto").Some? && IntAt(GetArray(update, "scrollto").value, 0).Some?
    ensures GetArray(update, "scrollto").None? ==> r.None?
    ensures GetArray(update, "scrollto").Some? ==> r == IntAt(GetArray(update, "scrollto").value, 0)
  {
    match GetArray(update, "scrollto")
    case None => None
    case Some(a) => IntAt(a, 0)
  }

  class XiView {
    /** getLineHeight(), fixed by the text paint. */
    const lineHeight: int
    var bridge: XiBridge?
    /** None until activateBridge. */
    var tab: Option<string>
    var firstLine: int
    /** The line slots; None is a slot not rendered yet. */
    var lines: array<Option<StyledLine>>
    var totalLines: int
    var cursorLine: int
    var cursorText: Option<StyledLine>
    var yOffset: int
    /** getScrollY() and getHeight(), the framework's state. */
    var scrollY: int
    var height: int
    /** How many times requestLayout() was called. */
    var layoutRequests: nat

    /**
     * firstLine is the line at the scroll position and the bridge is present
     * exactly once a tab is bound. (yOffset, the pixel offset of slot 0, is
     * set with firstLine by every scroll; see OnScrollChanged.)
     */
    ghost predicate Valid()
      reads this, bridge
    {
      && lineHeight > 0
      && lines.Length >= 2
      && firstLine == JavaDiv(scrollY, lineHeight)
      && (bridge != null <==> tab.Some?)
      && (bridge != null ==> bridge.Valid())
    }

    /** The bridge, once one is bound, as a frame. */
    function Linked(): set<XiBridge>
      reads this
    {
      if bridge == null then {} else {bridge}
    }

    /** A view not laid out yet: height 0, so 0 / lineHeight + 2 slots. */
    constructor (lineHeight: int)
      requires lineHeight > 0
      ensures Valid()
      ensures this.lineHeight == lineHeight && fresh(lines)
      ensures lines.Length == 2 && lines[..] == [None, None]
      ensures firstLine == 0 && totalLines == 0 && cursorLine == 0 && cursorText == None
      ensures yOffset == 0 && scrollY == 0 && height == 0 && layoutRequests == 0
      ensures bridge == null && tab == None
    {
      this.lineHeight := lineHeight;
      bridge := null;
      tab := None;
      firstLine := 0;
      lines := new Option<StyledLine>[0 / lineHeight + 2](_ => None);
      totalLines := 0;
      cursorLine := 0;
      cursorText := None;
      yOffset := 0;
      scrollY := 0;
      height := 0;
      layoutRequests := 0;
    }

    /** activateBridge: bind the bridge and the tab, and register for updates. */
    method ActivateBridge(b: XiBridge, t: string)
      requires Valid() && b.Valid()
      modifies this`bridge, this`tab, b`hasListener
      ensures Valid()
      ensures bridge == b && tab == Some(t) && b.hasListener
    {
      bridge := b;
      b.SetUpdateListener(true);
      tab := Some(t);
    }

    /**
     * updateLines(f, payload): install the payload lines that fall in the
     * window, stopping at the first one that does not build; `crashed` when
     * that line's offsets ended the app.
     */
    method UpdateLines(f: int, payload: seq<Json>) returns (crashed: bool)
      requires Valid()
      modifies this`cursorLine, this`cursorText, lines
      ensures Valid()
      ensures var r := InstallLines(old(lines[..]), old(cursorText), firstLine, f, payload);
        lines[..] == r.slots && cursorLine == r.cursorLine && cursorText == r.cursorText && crashed == r.crashed
    {
      cursorLine, cursorText, crashed := InstallInto(lines, cursorText, firstLine, f, payload);
    }

    /**
     * The view's sendRenderLines: clamp [first, last) to the window and, unless
     * that leaves nothing, ask for it with a handler that installs the result
     * at the clamped first line.
     */
    method SendRenderLines(first: int, last: int)
      requires Valid() && bridge != null
      modifies bridge`id, bridge`handlers, bridge`sent
      ensures Valid()
      ensures var r := RenderRange(first, last, firstLine, lines.Length);
        (r.None? ==> bridge.sent == old(bridge.sent) && bridge.handlers == old(bridge.handlers) && bridge.id == old(bridge.id))
        && (r.Some? ==>
              && bridge.sent == old(bridge.sent) + [RenderLinesCall(old(bridge.id), tab.value, r.value.0, r.value.1)]
              && bridge.handlers == old(bridge.handlers)[old(bridge.id) := RenderLinesHandler(r.value.0)]
              && bridge.id == old(bridge.id) + 1)
    {
      var r := RenderRange(first, last, firstLine, lines.Length);
      if r.None? {
        return;
      }
      var (f, l) := r.value;
      bridge.SendRenderLines(tab.value, f, l, RenderLinesHandler(f));
    }

    /**
     * onScrollChanged(t): move the window to line t / lineHeight, shift the
     * slots that stay in view, ask for the exposed lines and report the new
     * window. The source dereferences the bridge whenever the line changes.
     */
    method OnScrollChanged(t: int)
      requires Valid()
      requires JavaDiv(t, lineHeight) != firstLine ==> bridge != null
      modifies this`firstLine, this`scrollY, this`yOffset, this`cursorLine, lines, Linked()`id, Linked()`handlers, Linked()`sent
      ensures Valid()
      ensures scrollY == t && firstLine == JavaDiv(t, lineHeight) && yOffset == firstLine * lineHeight - t
      ensures lines[..] == Scrolled(old(lines[..]), firstLine - old(firstLine))
      ensures cursorLine == old(cursorLine) - (firstLine - old(firstLine))
      ensures firstLine == old(firstLine) && bridge != null ==>
        bridge.sent == old(bridge.sent) && bridge.handlers == old(bridge.handlers) && bridge.id == old(bridge.id)
      ensures firstLine != old(firstLine) ==>
        && bridge.sent == old(bridge.sent) + ScrollMessages(old(bridge.id), tab.value, old(firstLine), firstLine, lines.Length)
        && bridge.handlers == old(bridge.handlers)[old(bridge.id) := RenderLinesHandler(Exposed(old(firstLine), firstLine, lines.Length).0)]
        && bridge.id == old(bridge.id) + 1
    {
      var next := JavaDiv(t, lineHeight);
      if next > firstLine {
        ScrollForward(t);
      } else if next < firstLine {
        ScrollBackward(t);
      } else {
        scrollY := t;
        yOffset := firstLine * lineHeight - t;
        ScrolledZero(lines[..]);
      }
    }

    /** onScrollChanged when the window moves down: the copy loop runs forward. */
    method ScrollForward(t: int)
      requires Valid() && bridge != null && JavaDiv(t, lineHeight) > firstLine
      modifies this`firstLine, this`scrollY, this`yOffset, this`cursorLine, lines, bridge`id, bridge`handlers, bridge`sent
      ensures Valid()
      ensures scrollY == t && firstLine == JavaDiv(t, lineHeight) && yOffset == firstLine * lineHeight - t
      ensures lines[..] == Scrolled(old(lines[..]), firstLine - old(firstLine))
      ensures cursorLine == old(cursorLine) - (firstLine - old(firstLine))
      ensures
        && bridge.sent == old(bridge.sent) + ScrollMessages(old(bridge.id), tab.value, old(firstLine), firstLine, lines.Length)
        && bridge.handlers == old(bridge.handlers)[old(bridge.id) := RenderLinesHandler(Exposed(old(firstLine), firstLine, lines.Length).0)]
        && bridge.id == old(bridge.id) + 1
    {
      var prev := firstLine;
      ghost var before := lines[..];
      firstLine := JavaDiv(t, lineHeight);
      scrollY := t;
      yOffset := firstLine * lineHeight - t;
      assert lines[..] == before;
      RealignForward(prev);
    }

    /**
     * The second half of ScrollForward: with the new window top already set,
     * move the kept slots, shift the cursor and ask for the exposed lines.
     */
    method RealignForward(prev: int)
      requires Valid() && bridge != null && prev < firstLine
      modifies this`cursorLine, lines, bridge`id, bridge`handlers, bridge`sent
      ensures Valid()
      ensures lines[..] == Scrolled(old(lines[..]), firstLine - prev)
      ensures cursorLine == old(cursorLine) - (firstLine - prev)
      ensures
        && bridge.sent == old(bridge.sent) + ScrollMessages(old(bridge.id), tab.value, prev, firstLine, lines.Length)
        && bridge.handlers == old(bridge.handlers)[old(bridge.id) := RenderLinesHandler(Exposed(prev, firstLine, lines.Length).0)]
        && bridge.id == old(bridge.id) + 1
    {
      var len := lines.Length;
      ghost var sent0, id0 := bridge.sent, bridge.id;
      ghost var e := Exposed(prev, firstLine, len);
      var d := firstLine - prev;
      ShiftForward(lines, d);
      cursorLine := cursorLine - d;
      ForwardRequestIsExposed(prev, firstLine, len);
      SendRenderLines(prev + len, firstLine + len);
      assert bridge.sent == sent0 + [RenderLinesCall(id0, tab.value, e.0, e.1)];
      bridge.SendScroll(tab.value, firstLine, firstLine + len);
      AppendTwo(sent0, RenderLinesCall(id0, tab.value, e.0, e.1), ScrollEdit(tab.value, firstLine, firstLine + len));
    }

    /** onScrollChanged when the window moves up: the copy loop runs backward. */
    method ScrollBackward(t: int)
      requires Valid() && bridge != null && JavaDiv(t, lineHeight) < firstLine
      modifies this`firstLine, this`scrollY, this`yOffset, this`cursorLine, lines, bridge`id, bridge`handlers, bridge`sent
      ensures Valid()
      ensures scrollY == t && firstLine == JavaDiv(t, lineHeight) && yOffset == firstLine * lineHeight - t
      ensures lines[..] == Scrolled(old(lines[..]), firstLine - old(firstLine))
      ensures cursorLine == old(cursorLine) - (firstLine - old(firstLine))
      ensures
        && bridge.sent == old(bridge.sent) + ScrollMessages(old(bridge.id), tab.value, old(firstLine), firstLine, lines.Length)
        && bridge.handlers == old(bridge.handlers)[old(bridge.id) := RenderLinesHandler(Exposed(old(firstLine), firstLine, lines.Length).0)]
        && bridge.id == old(bridge.id) + 1
    {
      var prev := firstLine;
      ghost var before := lines[..];
      firstLine := JavaDiv(t, lineHeight);
      scrollY := t;
      yOffset := firstLine * lineHeight - t;
      assert lines[..] == before;
      RealignBackward(prev);
    }

    /**
     * The second half of ScrollBackward: with the new window top already set,
     * move the kept slots, shift the cursor and ask for the exposed lines.
     */
    method RealignBackward(prev: int)
      requires Valid() && bridge != null && prev > firstLine
      modifies this`cursorLine, lines, bridge`id, bridge`handlers, bridge`sent
      ensures Valid()
      ensures lines[..] == Scrolled(old(lines[..]), firstLine - prev)
      ensures cursorLine == old(cursorLine) - (firstLine - prev)
      ensures
        && bridge.sent == old(bridge.sent) + ScrollMessages(old(bridge.id), tab.value, prev, firstLine, lines.Length)
        && bridge.handlers == old(bridge.handlers)[old(bridge.id) := RenderLinesHandler(Exposed(prev, firstLine, lines.Length).0)]
        && bridge.id == old(bridge.id) + 1
    {
      var len := lines.Length;
      ghost var sent0, id0 := bridge.sent, bridge.id;
      ghost var e := Exposed(prev, firstLine, len);
      var d := prev - firstLine;
      ShiftBackward(lines, d);
      cursorLine := cursorLine + d;
      BackwardRequestIsExposed(prev, firstLine, len);
      SendRenderLines(firstLine, prev);
      assert bridge.sent == sent0 + [RenderLinesCall(id0, tab.value, e.0, e.1)];
      bridge.SendScroll(tab.value, firstLine, firstLine + len);
      AppendTwo(sent0, RenderLinesCall(id0, tab.value, e.0, e.1), ScrollEdit(tab.value, firstLine, firstLine + len));
    }

    /**
     * onSizeChanged(h): with a bridge, resize the window to h / lineHeight + 2
     * slots, keeping the common prefix; report the new window and ask for the
     * slots it gained.
     */
    method OnSizeChanged(h: int)
      requires Valid() && h >= 0
      modifies this`height, this`lines, Linked()`id, Linked()`handlers, Linked()`sent
      ensures Valid()
      ensures height == h
      ensures bridge == null || lines.Length == old(lines.Length) ==>
        lines == old(lines)
        && (bridge != null ==> bridge.sent == old(bridge.sent) && bridge.handlers == old(bridge.handlers) && bridge.id == old(bridge.id))
      ensures bridge != null ==> lines.Length == h / lineHeight + 2
      ensures lines != old(lines) ==>
        && fresh(lines)
        && (forall k :: 0 <= k < Min(lines.Length, old(lines.Length)) ==> lines[k] == old(lines[k]))
        && (forall k :: old(lines.Length) <= k < lines.Length ==> lines[k] == None)
        && bridge.sent == old(bridge.sent) + [ScrollEdit(tab.value, firstLine, firstLine + lines.Length)]
             + (if lines.Length > old(lines.Length)
                then [RenderLinesCall(old(bridge.id), tab.value, firstLine + old(lines.Length), firstLine + lines.Length)]
                else [])
      ensures lines.Length < old(lines.Length) ==>
        bridge.handlers == old(bridge.handlers) && bridge.id == old(bridge.id)
      ensures old(lines.Length) < lines.Length ==>
        bridge.handlers == old(bridge.handlers)[old(bridge.id) := RenderLinesHandler(firstLine + old(lines.Length))]
        && bridge.id == old(bridge.id) + 1
    {
      height := h;
      if bridge == null {
        return;
      }
      var newLen := h / lineHeight + 2;
      if newLen != lines.Length {
        Resize(newLen);
      }
    }

    /** The resizing branch of onSizeChanged: Arrays.copyOf, then the scroll and render requests. */
    method Resize(newLen: int)
      requires Valid() && bridge != null && 2 <= newLen && newLen != lines.Length
      modifies this`lines, bridge`id, bridge`handlers, bridge`sent
      ensures Valid()
      ensures fresh(lines) && lines.Length == newLen
      ensures forall k :: 0 <= k < Min(lines.Length, old(lines.Length)) ==> lines[k] == old(lines[k])
      ensures forall k :: old(lines.Length) <= k < lines.Length ==> lines[k] == None
      ensures bridge.sent == old(bridge.sent) + [ScrollEdit(tab.value, firstLine, firstLine + lines.Length)]
        + (if lines.Length > old(lines.Length)
           then [RenderLinesCall(old(bridge.id), tab.value, firstLine + old(lines.Length), firstLine + lines.Length)]
           else [])
      ensures lines.Length < old(lines.Length) ==> bridge.handlers == old(bridge.handlers) && bridge.id == old(bridge.id)
      ensures old(lines.Length) < lines.Length ==>
        bridge.handlers == old(bridge.handlers)[old(bridge.id) := RenderLinesHandler(firstLine + old(lines.Length))]
        && bridge.id == old(bridge.id) + 1
    {
      var prevLen := lines.Length;
      ghost var sent0, id0 := bridge.sent, bridge.id;
      lines := CopyOf(lines, newLen);
      bridge.SendScroll(tab.value, firstLine, firstLine + newLen);
      if newLen > prevLen {
        GrowRequestIsNewTail(firstLine, prevLen, newLen);
        SendRenderLines(firstLine + prevLen, firstLine + newLen);
        AppendTwo(sent0, ScrollEdit(tab.value, firstLine, firstLine + newLen),
                  RenderLinesCall(id0, tab.value, firstLine + prevLen, firstLine + newLen));
      } else {
        assert bridge.sent == sent0 + [ScrollEdit(tab.value, firstLine, firstLine + newLen)] + [];
      }
    }

    /**
     * handleUpdate(t, update): ignore another tab's update; take the new
     * document height, install the lines, then scroll a requested line into
     * view. A missing or mistyped field ends the update where it is met;
     * `crashed` when installing the lines ended the app, and nothing after
     * that runs.
     */
    method HandleUpdate(t: string, update: seq<Member>) returns (crashed: bool)
      requires Valid()
      modifies this`totalLines, this`layoutRequests, this`cursorText, this`firstLine, this`scrollY, this`yOffset, this`cursorLine, lines, Linked()`id, Linked()`handlers, Linked()`sent
      ensures Valid()
      ensures crashed ==> tab == Some(t) && HeightReadable(update) && LinesOf(update).Some?
      ensures tab != Some(t) || !HeightReadable(update) ==>
        && lines[..] == old(lines[..]) && totalLines == old(totalLines) && layoutRequests == old(layoutRequests)
        && cursorLine == old(cursorLine) && cursorText == old(cursorText) && scrollY == old(scrollY) && yOffset == old(yOffset)
        && (bridge != null ==> bridge.sent == old(bridge.sent) && bridge.handlers == old(bridge.handlers) && bridge.id == old(bridge.id))
      ensures tab == Some(t) && HeightReadable(update) ==>
        && totalLines == (if Has(update, "height") then GetInt(update, "height").value else old(totalLines))
        && layoutRequests == old(layoutRequests) + (if totalLines != old(totalLines) then 1 else 0)
      ensures tab == Some(t) && HeightReadable(update) && LinesOf(update).None? ==>
        && lines[..] == old(lines[..]) && cursorLine == old(cursorLine) && cursorText == old(cursorText)
        && scrollY == old(scrollY) && yOffset == old(yOffset) && bridge.sent == old(bridge.sent)
        && bridge.handlers == old(bridge.handlers) && bridge.id == old(bridge.id)
      ensures tab == Some(t) && HeightReadable(update) && LinesOf(update).Some? ==>
        var (f, payload) := LinesOf(update).value;
        var r := InstallLines(old(lines[..]), old(cursorText), old(firstLine), f, payload);
        var target := ScrollRequest(update, lineHeight, old(firstLine * lineHeight - yOffset), height);
        && crashed == r.crashed
        && scrollY == (if target.Some? && !crashed then target.value else old(scrollY))
        && yOffset == (if target.Some? && !crashed then firstLine * lineHeight - scrollY else old(yOffset))
        && lines[..] == Scrolled(r.slots, firstLine - old(firstLine))
        && cursorLine == r.cursorLine - (firstLine - old(firstLine))
        && cursorText == r.cursorText
      ensures tab == Some(t) && firstLine == old(firstLine) ==>
        bridge.sent == old(bridge.sent) && bridge.handlers == old(bridge.handlers) && bridge.id == old(bridge.id)
      ensures firstLine != old(firstLine) ==>
        && tab == Some(t)
        && bridge.sent == old(bridge.sent) + ScrollMessages(old(bridge.id), tab.value, old(firstLine), firstLine, lines.Length)
        && bridge.handlers == old(bridge.handlers)[old(bridge.id) := RenderLinesHandler(Exposed(old(firstLine), firstLine, lines.Length).0)]
        && bridge.id == old(bridge.id) + 1
    {
      crashed := false;
      if tab != Some(t) {
        return;
      }
      var ok := TakeHeight(update);
      if !ok {
        return;
      }
      ghost var before := lines[..];
      assert before == old(lines[..]);
      crashed := ApplyLines(update);
    }

    /** The `first_line`, `lines` and `scrollto` fields of handleUpdate, once the height is taken. */
    method ApplyLines(update: seq<Member>) returns (crashed: bool)
      requires Valid() && bridge != null
      modifies this`cursorText, this`firstLine, this`scrollY, this`yOffset, this`cursorLine, lines, bridge`id, bridge`handlers, bridge`sent
      ensures Valid()
      ensures LinesOf(update).None? ==>
        && !crashed && lines[..] == old(lines[..]) && cursorLine == old(cursorLine) && cursorText == old(cursorText)
        && scrollY == old(scrollY) && yOffset == old(yOffset) && firstLine == old(firstLine)
      ensures LinesOf(update).Some? ==>
        var (f, payload) := LinesOf(update).value;
        var r := InstallLines(old(lines[..]), old(cursorText), old(firstLine), f, payload);
        var target := ScrollRequest(update, lineHeight, old(firstLine * lineHeight - yOffset), height);
        && crashed == r.crashed
        && scrollY == (if target.Some? && !crashed then target.value else old(scrollY))
        && yOffset == (if target.Some? && !crashed then firstLine * lineHeight - scrollY else old(yOffset))
        && lines[..] == Scrolled(r.slots, firstLine - old(firstLine))
        && cursorLine == r.cursorLine - (firstLine - old(firstLine))
        && cursorText == r.cursorText
      ensures firstLine == old(firstLine) ==>
        bridge.sent == old(bridge.sent) && bridge.handlers == old(bridge.handlers) && bridge.id == old(bridge.id)
      ensures firstLine != old(firstLine) ==>
        && bridge.sent == old(bridge.sent) + ScrollMessages(old(bridge.id), tab.value, old(firstLine), firstLine, lines.Length)
        && bridge.handlers == old(bridge.handlers)[old(bridge.id) := RenderLinesHandler(Exposed(old(firstLine), firstLine, lines.Length).0)]
        && bridge.id == old(bridge.id) + 1
    {
      crashed := false;
      var fl := LinesOf(update);
      if fl.None? {
        return;
      }
      ghost var r := InstallLines(lines[..], cursorText, firstLine, fl.value.0, fl.value.1);
      ghost var first0, y0, s0 := firstLine, yOffset, scrollY;
      crashed := UpdateLines(fl.value.0, fl.value.1);
      assert lines[..] == r.slots && cursorLine == r.cursorLine && cursorText == r.cursorText;
      assert firstLine == first0 && yOffset == y0 && scrollY == s0;
      if crashed {
        ScrolledZero(lines[..]);
        return;
      }
      ScrollIntoView(update);
    }

    /** The `height` field of handleUpdate; false when it is present but not an int. */
    method TakeHeight(update: seq<Member>) returns (ok: bool)
      modifies this`totalLines, this`layoutRequests
      ensures ok <==> HeightReadable(update)
      ensures !ok ==> totalLines == old(totalLines) && layoutRequests == old(layoutRequests)
      ensures ok ==>
        && totalLines == (if Has(update, "height") then GetInt(update, "height").value else old(totalLines))
        && layoutRequests == old(layoutRequests) + (if totalLines != old(totalLines) then 1 else 0)
    {
      if Has(update, "height") {
        var h := GetInt(update, "height");
        if h.None? {
          return false;
        }
        if h.value != totalLines {
          totalLines := h.value;
          layoutRequests := layoutRequests + 1;
        }
      }
      return true;
    }

    /**
     * The `scrollto` field of handleUpdate: setScrollY to the target, if there
     * is one, which runs onScrollChanged with all it sends.
     */
    method ScrollIntoView(update: seq<Member>)
      requires Valid() && bridge != null
      modifies this`firstLine, this`scrollY, this`yOffset, this`cursorLine, lines, Linked()`id, Linked()`handlers, Linked()`sent
      ensures Valid()
      ensures var target := ScrollRequest(update, lineHeight, old(firstLine * lineHeight - yOffset), height);
        && scrollY == (if target.Some? then target.value else old(scrollY))
        && yOffset == (if target.Some? then firstLine * lineHeight - scrollY else old(yOffset))
      ensures lines[..] == Scrolled(old(lines[..]), firstLine - old(firstLine))
      ensures cursorLine == old(cursorLine) - (firstLine - old(firstLine))
      ensures firstLine == old(firstLine) ==>
        bridge.sent == old(bridge.sent) && bridge.handlers == old(bridge.handlers) && bridge.id == old(bridge.id)
      ensures firstLine != old(firstLine) ==>
        && bridge.sent == old(bridge.sent) + ScrollMessages(old(bridge.id), tab.value, old(firstLine), firstLine, lines.Length)
        && bridge.handlers == old(bridge.handlers)[old(bridge.id) := RenderLinesHandler(Exposed(old(firstLine), firstLine, lines.Length).0)]
        && bridge.id == old(bridge.id) + 1
    {
      var target := ScrollRequest(update, lineHeight, firstLine * lineHeight - yOffset, height);
      if target.Some? {
        OnScrollChanged(target.value);
      } else {
        ScrolledZero(lines[..]);
      }
    }

    /**
     * onKeyDown: a mapped key becomes an edit command for this tab; any other
     * key goes to the text key listener, outside this model.
     */
    method OnKeyDown(keyCode: int, shiftOnly: bool) returns (r: KeyResult)
      requires Valid() && bridge != null
      modifies bridge`sent
      ensures Valid()
      ensures KeyCommand(keyCode, shiftOnly).Some? ==>
        r == SentCommand(KeyCommand(keyCode, shiftOnly).value)
        && bridge.sent == old(bridge.sent) + [Edit(Command(tab.value, r.command, JObj([])))]
      ensures KeyCommand(keyCode, shiftOnly).None? ==> r == Delegated && bridge.sent == old(bridge.sent)
    {
      var command := KeyCommand(keyCode, shiftOnly);
      if command.Some? {
        bridge.SendEditCommand(tab.value, command.value);
        return SentCommand(command.value);
      }
      return Delegated;
    }

    /**
     * The key listener installed by activateBridge: after the stock listener
     * ran (handled = its result), send what it typed as an insert.
     */
    method OnListenerKey(handled: bool, content: string) returns (r: bool)
      requires Valid() && bridge != null
      modifies bridge`sent
      ensures Valid()
      ensures r == handled
      ensures handled || |content| > 0 ==> bridge.sent == old(bridge.sent) + [Edit(Command(tab.value, "insert", JObj([Member("chars", JStr(content))])))]
      ensures !handled && |content| == 0 ==> bridge.sent == old(bridge.sent)
    {
      if handled || |content| > 0 {
        bridge.SendInsert(tab.value, content);
      }
      return handled;
    }

    /**
     * What the bridge's callbacks do in the view: a render_lines handler
     * installs its result (the source casts it to an array) and an update
     * goes to handleUpdate. Handlers of other requests are not the view's.
     * `crashed` when installing lines ended the app.
     */
    method OnBridgeAction(action: Action) returns (crashed: bool)
      requires Valid()
      requires action.Invoke? && action.handler.RenderLinesHandler? ==> action.result.JArr?
      modifies this`totalLines, this`layoutRequests, this`cursorText, this`firstLine, this`scrollY, this`yOffset, this`cursorLine, lines, Linked()`id, Linked()`handlers, Linked()`sent
      ensures Valid()
      ensures action.Invoke? && action.handler.RenderLinesHandler? ==>
        var r := InstallLines(old(lines[..]), old(cursorText), firstLine, action.handler.first, action.result.elems);
        && lines[..] == r.slots && cursorLine == r.cursorLine && cursorText == r.cursorText && crashed == r.crashed
        && firstLine == old(firstLine) && scrollY == old(scrollY) && yOffset == old(yOffset)
        && totalLines == old(totalLines) && layoutRequests == old(layoutRequests)
        && (bridge != null ==> bridge.sent == old(bridge.sent) && bridge.handlers == old(bridge.handlers) && bridge.id == old(bridge.id))
      ensures action.NoAction? || (action.Invoke? && action.handler.ExternalHandler?) ==>
        && !crashed && lines[..] == old(lines[..]) && cursorLine == old(cursorLine) && cursorText == old(cursorText)
        && firstLine == old(firstLine) && scrollY == old(scrollY) && yOffset == old(yOffset)
        && totalLines == old(totalLines) && layoutRequests == old(layoutRequests)
        && (bridge != null ==> bridge.sent == old(bridge.sent) && bridge.handlers == old(bridge.handlers) && bridge.id == old(bridge.id))
      ensures action.Deliver? && (tab != Some(action.tab) || !HeightReadable(action.update)) ==>
        && !crashed && lines[..] == old(lines[..]) && totalLines == old(totalLines) && layoutRequests == old(layoutRequests)
        && cursorLine == old(cursorLine) && cursorText == old(cursorText) && scrollY == old(scrollY) && yOffset == old(yOffset)
        && (bridge != null ==> bridge.sent == old(bridge.sent) && bridge.handlers == old(bridge.handlers) && bridge.id == old(bridge.id))
      ensures action.Deliver? && tab == Some(action.tab) && HeightReadable(action.update) ==>
        var update := action.update;
        && totalLines == (if Has(update, "height") then GetInt(update, "height").value else old(totalLines))
        && layoutRequests == old(layoutRequests) + (if totalLines != old(totalLines) then 1 else 0)
        && (LinesOf(update).None? ==>
              && !crashed && lines[..] == old(lines[..]) && cursorLine == old(cursorLine) && cursorText == old(cursorText)
              && scrollY == old(scrollY) && yOffset == old(yOffset) && bridge.sent == old(bridge.sent))
        && (LinesOf(update).Some? ==>
              var (f, payload) := LinesOf(update).value;
              var r := InstallLines(old(lines[..]), old(cursorText), old(firstLine), f, payload);
              var target := ScrollRequest(update, lineHeight, old(firstLine * lineHeight - yOffset), height);
              && crashed == r.crashed
              && scrollY == (if target.Some? && !crashed then target.value else old(scrollY))
              && yOffset == (if target.Some? && !crashed then firstLine * lineHeight - scrollY else old(yOffset))
              && lines[..] == Scrolled(r.slots, firstLine - old(firstLine))
              && cursorLine == r.cursorLine - (firstLine - old(firstLine))
              && cursorText == r.cursorText)
        && (firstLine == old(firstLine) ==>
              bridge.sent == old(bridge.sent) && bridge.handlers == old(bridge.handlers) && bridge.id == old(bridge.id))
        && (firstLine != old(firstLine) ==>
              && bridge.sent == old(bridge.sent) + ScrollMessages(old(bridge.id), tab.value, old(firstLine), firstLine, lines.Length)
              && bridge.handlers == old(bridge.handlers)[old(bridge.id) := RenderLinesHandler(Exposed(old(firstLine), firstLine, lines.Length).0)]
              && bridge.id == old(bridge.id) + 1)
    {
      crashed := false;
      match action
      case NoAction =>
      case Invoke(handler, result) =>
        if handler.RenderLinesHandler? {
          crashed := UpdateLines(handler.first, result.elems);
        }
      case Deliver(t, update) =>
        crashed := HandleUpdate(t, update);
    }
  }
}
