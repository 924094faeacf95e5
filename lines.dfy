/**
 * Reconstruction of one styled line from its payload, as XiView.updateLines
 * does it for each line of a response or update. The payload the code reads
 * is a flat array: [text, annotation, annotation, ...], each annotation being
 * ["cursor", col], ["fg", start, end, color, styleBits] or ["sel", start, end];
 * any other tag is skipped. The selection is kept in two integers that use -1
 * for "unset", exactly as the code does.
 */
module Lines {
  import opened Wrappers
  import opened Json

  /**
   * A ForegroundColorSpan from offset start to offset end of the line's text
   * (offsets in UTF-16 code units, see Utf16Length), set with SPAN_INCLUSIVE_INCLUSIVE (text inserted at either end widens it);
   * the style bits are never read.
   */
  datatype Span = Span(start: int, end: int, color: int)

  /**
   * Java's String.length(), the unit every offset of a line is counted in:
   * UTF-16 code units, so a character outside the Basic Multilingual Plane
   * (a surrogate pair) counts twice.
   */
  function Utf16Length(s: string): (n: nat)
    ensures |s| <= n <= 2 * |s|
  {
    if s == [] then 0 else (if s[0] as int >= 0x1_0000 then 2 else 1) + Utf16Length(s[1..])
  }

  /** On text made of Basic Multilingual Plane characters, Java's length is the character count. */
  lemma {:induction false} Utf16LengthOfBmp(s: string)
    requires forall k :: 0 <= k < |s| ==> (s[k] as int) < 0x1_0000
    ensures Utf16Length(s) == |s|
  {
    if s != [] {
      assert forall k :: 0 <= k < |s[1..]| ==> (s[1..][k] as int) < 0x1_0000 by {
        forall k | 0 <= k < |s[1..]| ensures (s[1..][k] as int) < 0x1_0000 {
          assert s[1..][k] == s[k + 1];
        }
      }
      Utf16LengthOfBmp(s[1..]);
    }
  }

  /** What StaticLayout is built from: the text, its colour spans and the selection. */
  datatype StyledLine = StyledLine(text: string, spans: seq<Span>, selection: Option<(int, int)>)

  /**
   * The locals of updateLines while it walks one line's annotations, and
   * whether it has assigned this.cursorLine for this line.
   */
  datatype LineState = LineState(selStart: int, selEnd: int, spans: seq<Span>, sawCursor: bool)

  const Fresh: LineState := LineState(-1, -1, [], false)

  /**
   * After one annotation: go on; or the JSONException that abandons the
   * update; or the IndexOutOfBoundsException of an offset outside the text,
   * which no handler catches and which ends the app.
   */
  datatype Step = Continue(st: LineState) | Abort(sawCursor: bool) | Crash(sawCursor: bool)

  /**
   * One line: built, abandoned or crashed; in every case the cursor flag says
   * whether cursorLine was set.
   */
  datatype LineResult = Built(line: StyledLine, sawCursor: bool) | Failed(sawCursor: bool) | Crashed(sawCursor: bool)

  /** Whether an annotation can be read without a JSONException; this does not depend on the state. */
  predicate WellFormed(a: Json) {
    && a.JArr?
    && StringAt(a.elems, 0).Some?
    && (StringAt(a.elems, 0).value == "cursor" ==> IntAt(a.elems, 1).Some?)
    && (StringAt(a.elems, 0).value == "fg" ==>
         IntAt(a.elems, 1).Some? && IntAt(a.elems, 2).Some? && IntAt(a.elems, 3).Some?)
    && (StringAt(a.elems, 0).value == "sel" ==> IntAt(a.elems, 1).Some? && IntAt(a.elems, 2).Some?)
  }

  predicate IsTagged(a: Json, tag: string) {
    a.JArr? && StringAt(a.elems, 0) == Some(tag)
  }

  /** The range check of SpannableStringBuilder.setSpan on a text of n characters. */
  predicate Fits(start: int, end: int, n: int) {
    0 <= start <= end <= n
  }

  /** Whether an annotation is read and applied on a line of n characters without an exception. */
  predicate Readable(a: Json, n: int) {
    WellFormed(a) && (IsTagged(a, "fg") ==> Fits(a.elems[1].n, a.elems[2].n, n))
  }

  /** The body of the switch over one annotation, on a line whose text has n characters. */
  function ApplyAnnotation(st: LineState, n: int, a: Json): (r: Step)
    ensures r.Continue? <==> Readable(a, n)
    ensures r.Crash? <==> WellFormed(a) && !Readable(a, n)
    ensures r.Abort? ==> r.sawCursor == (st.sawCursor || (IsTagged(a, "cursor") && st.selEnd == -1))
    ensures r.Crash? ==> r.sawCursor == st.sawCursor
  {
    if !a.JArr? then Abort(st.sawCursor)
    else
      var ann := a.elems;
      match StringAt(ann, 0)
      case None => Abort(st.sawCursor)
      case Some(tag) =>
        if tag == "cursor" then
          if st.selEnd != -1 then
            // only logged; the value is still read
            (if IntAt(ann, 1).Some? then Continue(st) else Abort(st.sawCursor))
          else
            // this.cursorLine is assigned before the column is read
            (match IntAt(ann, 1)
             case Some(c) => Continue(st.(selEnd := c, sawCursor := true))
             case None => Abort(true))
        else if tag == "fg" then
          (match (IntAt(ann, 3), IntAt(ann, 1), IntAt(ann, 2))
           case (Some(color), Some(s), Some(e)) =>
             if Fits(s, e, n) then Continue(st.(spans := st.spans + [Span(s, e, color)]))
             else Crash(st.sawCursor)
           case _ => Abort(st.sawCursor))
        else if tag == "sel" then
          (match (IntAt(ann, 1), IntAt(ann, 2))
           case (Some(s), Some(e)) => Continue(st.(selStart := s, selEnd := e))
           case _ => Abort(st.sawCursor))
        else Continue(st)
  }

  /** The annotation loop, from the left. */
  function RunAnnotations(st: LineState, n: int, anns: seq<Json>): Step
    decreases |anns|
  {
    if anns == [] then Continue(st)
    else
      match ApplyAnnotation(st, n, anns[0])
      case Abort(c) => Abort(c)
      case Crash(c) => Crash(c)
      case Continue(st') => RunAnnotations(st', n, anns[1..])
  }

  /** What is left to do once the annotations are read: a missing start falls back to the end. */
  function Finish(text: string, st: LineState): StyledLine {
    var selStart := if st.selStart == -1 then st.selEnd else st.selStart;
    StyledLine(text, st.spans, if st.selEnd != -1 then Some((selStart, st.selEnd)) else None)
  }

  /** The range check Selection.setSelection makes on both ends of a selection. */
  predicate SelectionFits(sel: Option<(int, int)>, n: int) {
    sel.Some? ==> 0 <= sel.value.0 <= n && 0 <= sel.value.1 <= n
  }

  /**
   * One line of updateLines, from a builder holding nothing:
   * lines.getJSONArray(k), its string, its annotations, then the selection.
   */
  function ParseLine(payload: Json): LineResult {
    if !payload.JArr? || StringAt(payload.elems, 0).None? then Failed(false)
    else
      var text := payload.elems[0].s;
      match RunAnnotations(Fresh, Utf16Length(text), payload.elems[1..])
      case Abort(c) => Failed(c)
      case Crash(c) => Crashed(c)
      case Continue(st) =>
        var line := Finish(text, st);
        if SelectionFits(line.selection, Utf16Length(text)) then Built(line, st.sawCursor) else Crashed(st.sawCursor)
  }

  /** The inner loop of updateLines over one line's annotations. */
  method BuildLine(payload: Json) returns (r: LineResult)
    ensures r == ParseLine(payload)
  {
    if !payload.JArr? || StringAt(payload.elems, 0).None? {
      return Failed(false);
    }
    var line := payload.elems;
    var text := line[0].s;
    var n := Utf16Length(text);
    var selStart, selEnd := -1, -1;
    var spans: seq<Span> := [];
    var saw := false;
    var j := 1;
    while j < |line|
      invariant 1 <= j <= |line|
      invariant RunAnnotations(LineState(selStart, selEnd, spans, saw), n, line[j..])
             == RunAnnotations(Fresh, n, line[1..])
    {
      var step := ApplyAnnotation(LineState(selStart, selEnd, spans, saw), n, line[j]);
      assert line[j..][0] == line[j] && line[j..][1..] == line[j + 1..];
      match step
      case Abort(c) =>
        return Failed(c);
      case Crash(c) =>
        return Crashed(c);
      case Continue(st) =>
        selStart, selEnd, spans, saw := st.selStart, st.selEnd, st.spans, st.sawCursor;
      j := j + 1;
    }
    if selStart == -1 {
      selStart := selEnd;
    }
    var selection := if selEnd != -1 then Some((selStart, selEnd)) else None;
    if selEnd != -1 && !(0 <= selStart <= n && 0 <= selEnd <= n) {
      return Crashed(saw);
    }
    return Built(StyledLine(text, spans, selection), saw);
  }

  // ---- reference definitions the lemmas compare against ----

  /** The spans the fg annotations describe, in order. */
  function FgSpans(anns: seq<Json>): seq<Span> {
    if anns == [] then []
    else
      (if IsTagged(anns[0], "fg") && WellFormed(anns[0])
       then [Span(anns[0].elems[1].n, anns[0].elems[2].n, anns[0].elems[3].n)] else [])
      + FgSpans(anns[1..])
  }

  /** The (start, end) of the last sel annotation. */
  function LastSel(anns: seq<Json>): Option<(int, int)> {
    if anns == [] then None
    else
      match LastSel(anns[1..])
      case Some(p) => Some(p)
      case None =>
        if IsTagged(anns[0], "sel") && WellFormed(anns[0])
        then Some((anns[0].elems[1].n, anns[0].elems[2].n)) else None
  }

  /** The column of the first cursor annotation. */
  function FirstCursor(anns: seq<Json>): Option<int> {
    if anns == [] then None
    else if IsTagged(anns[0], "cursor") && WellFormed(anns[0]) then Some(anns[0].elems[1].n)
    else FirstCursor(anns[1..])
  }

  predicate AllWellFormed(anns: seq<Json>) {
    forall k :: 0 <= k < |anns| ==> WellFormed(anns[k])
  }

  predicate NoneTagged(anns: seq<Json>, tag: string) {
    forall k :: 0 <= k < |anns| ==> !IsTagged(anns[k], tag)
  }

  predicate AllReadable(anns: seq<Json>, n: int) {
    forall k :: 0 <= k < |anns| ==> Readable(anns[k], n)
  }

  /** The selection a run of annotations on a fresh line settles on, when the run finishes. */
  function SettledSelection(n: int, anns: seq<Json>): Option<(int, int)> {
    match RunAnnotations(Fresh, n, anns)
    case Continue(st) => Finish([], st).selection
    case _ => None
  }

  // ---- lemmas ----

  /** The annotation loop finishes exactly when every annotation is read and fits the text. */
  lemma {:induction false} RunSucceedsIff(st: LineState, n: int, anns: seq<Json>)
    ensures RunAnnotations(st, n, anns).Continue? <==> AllReadable(anns, n)
    decreases |anns|
  {
    if anns != [] {
      if Readable(anns[0], n) {
        RunSucceedsIff(ApplyAnnotation(st, n, anns[0]).st, n, anns[1..]);
        assert AllReadable(anns, n) <==> AllReadable(anns[1..], n) by {
          forall k | 0 <= k < |anns[1..]| ensures anns[1..][k] == anns[k + 1] { }
        }
      }
    }
  }

  /**
   * The loop stops at the first annotation that is not readable: it crashes
   * when that annotation is well formed (an fg span outside the text) and is
   * abandoned with a JSONException otherwise.
   */
  lemma {:induction false} RunStopsAt(st: LineState, n: int, anns: seq<Json>, k: int)
    requires 0 <= k < |anns| && !Readable(anns[k], n)
    requires forall j :: 0 <= j < k ==> Readable(anns[j], n)
    ensures RunAnnotations(st, n, anns).Crash? <==> WellFormed(anns[k])
    ensures RunAnnotations(st, n, anns).Abort? <==> !WellFormed(anns[k])
    decreases k
  {
    if k > 0 {
      assert Readable(anns[0], n);
      forall j | 0 <= j < k - 1 ensures Readable(anns[1..][j], n) {
        assert anns[1..][j] == anns[j + 1];
      }
      RunStopsAt(ApplyAnnotation(st, n, anns[0]).st, n, anns[1..], k - 1);
    }
  }

  /**
   * A line is built exactly when it is an array that starts with a string,
   * every annotation is read and fits the text, and the selection the
   * annotations settle on lies within the text.
   */
  lemma ParseLineBuiltIff(payload: Json)
    ensures ParseLine(payload).Built? <==>
      && payload.JArr? && StringAt(payload.elems, 0).Some?
      && var n := Utf16Length(payload.elems[0].s);
      && AllReadable(payload.elems[1..], n)
      && SelectionFits(SettledSelection(n, payload.elems[1..]), n)
  {
    if payload.JArr? && StringAt(payload.elems, 0).Some? {
      RunSucceedsIff(Fresh, Utf16Length(payload.elems[0].s), payload.elems[1..]);
    }
  }

  /** Every fg annotation adds one span from a1 to a2 with colour a3, in order; nothing else adds one. */
  lemma {:induction false} RunSpans(st: LineState, n: int, anns: seq<Json>)
    requires RunAnnotations(st, n, anns).Continue?
    ensures RunAnnotations(st, n, anns).st.spans == st.spans + FgSpans(anns)
    decreases |anns|
  {
    if anns != [] {
      RunSpans(ApplyAnnotation(st, n, anns[0]).st, n, anns[1..]);
    }
  }

  /** Without sel, once selEnd is set the selection and the cursor flag no longer change. */
  lemma {:induction false} SelectionSettled(st: LineState, n: int, anns: seq<Json>)
    requires st.selEnd != -1 && NoneTagged(anns, "sel")
    requires RunAnnotations(st, n, anns).Continue?
    ensures var st' := RunAnnotations(st, n, anns).st;
      st'.selStart == st.selStart && st'.selEnd == st.selEnd && st'.sawCursor == st.sawCursor
    decreases |anns|
  {
    if anns != [] {
      assert !IsTagged(anns[0], "sel");
      SelectionSettled(ApplyAnnotation(st, n, anns[0]).st, n, anns[1..]);
    }
  }

  /** The last sel annotation decides the selection, whatever cursors come before or after it. */
  lemma {:induction false} RunLastSel(st: LineState, n: int, anns: seq<Json>, s: int, e: int)
    requires RunAnnotations(st, n, anns).Continue?
    requires LastSel(anns) == Some((s, e)) && e != -1
    ensures RunAnnotations(st, n, anns).st.selStart == s && RunAnnotations(st, n, anns).st.selEnd == e
    decreases |anns|
  {
    var st1 := ApplyAnnotation(st, n, anns[0]).st;
    RunSucceedsIff(st1, n, anns[1..]);
    if LastSel(anns[1..]).Some? {
      RunLastSel(st1, n, anns[1..], s, e);
    } else {
      assert NoneTagged(anns[1..], "sel") by {
        forall k | 0 <= k < |anns[1..]| ensures !IsTagged(anns[1..][k], "sel") {
          NoSelAfter(anns[1..], n, k);
        }
      }
      SelectionSettled(st1, n, anns[1..]);
    }
  }

  lemma {:induction false} NoSelAfter(anns: seq<Json>, n: int, k: int)
    requires 0 <= k < |anns| && LastSel(anns).None? && AllReadable(anns, n)
    ensures !IsTagged(anns[k], "sel")
    decreases |anns|
  {
    assert Readable(anns[0], n);
    if k > 0 {
      assert AllReadable(anns[1..], n) by {
        forall i | 0 <= i < |anns[1..]| ensures Readable(anns[1..][i], n) {
          assert anns[1..][i] == anns[i + 1];
        }
      }
      NoSelAfter(anns[1..], n, k - 1);
    } else {
      assert Readable(anns[k], n);
    }
  }

  /** Running two stretches of annotations is running the first, then the second from where it stopped. */
  lemma {:induction false} RunConcat(st: LineState, n: int, a: seq<Json>, b: seq<Json>)
    ensures RunAnnotations(st, n, a + b)
      == match RunAnnotations(st, n, a)
         case Abort(c) => Abort(c)
         case Crash(c) => Crash(c)
         case Continue(st') => RunAnnotations(st', n, b)
    decreases |a|
  {
    if a == [] {
      assert a + b == b;
    } else {
      assert (a + b)[0] == a[0] && (a + b)[1..] == a[1..] + b;
      match ApplyAnnotation(st, n, a[0])
      case Abort(c) =>
      case Crash(c) =>
      case Continue(st1) => RunConcat(st1, n, a[1..], b);
    }
  }

  /** A cursor annotation met once selEnd is set on the line changes nothing. */
  lemma CursorAfterSelectionIgnored(st: LineState, n: int, pre: seq<Json>, cursor: Json, post: seq<Json>)
    requires IsTagged(cursor, "cursor") && WellFormed(cursor)
    requires RunAnnotations(st, n, pre).Continue? && RunAnnotations(st, n, pre).st.selEnd != -1
    ensures RunAnnotations(st, n, pre + [cursor] + post) == RunAnnotations(st, n, pre + post)
  {
    var mid := RunAnnotations(st, n, pre).st;
    assert ApplyAnnotation(mid, n, cursor) == Continue(mid);
    assert RunAnnotations(mid, n, [cursor] + post) == RunAnnotations(mid, n, post) by {
      assert ([cursor] + post)[0] == cursor && ([cursor] + post)[1..] == post;
    }
    RunConcat(st, n, pre, [cursor] + post);
    assert pre + [cursor] + post == pre + ([cursor] + post);
    RunConcat(st, n, pre, post);
  }

  /** With no sel, the first cursor sets a collapsed selection and flags the line. */
  lemma {:induction false} RunFirstCursor(st: LineState, n: int, anns: seq<Json>, c: int)
    requires st.selStart == -1 && st.selEnd == -1
    requires NoneTagged(anns, "sel") && FirstCursor(anns) == Some(c) && c != -1
    requires RunAnnotations(st, n, anns).Continue?
    ensures var st' := RunAnnotations(st, n, anns).st; st'.selStart == -1 && st'.selEnd == c && st'.sawCursor
    decreases |anns|
  {
    var st1 := ApplyAnnotation(st, n, anns[0]).st;
    assert !IsTagged(anns[0], "sel");
    assert NoneTagged(anns[1..], "sel") by {
      forall k | 0 <= k < |anns[1..]| ensures !IsTagged(anns[1..][k], "sel") {
        assert anns[1..][k] == anns[k + 1];
      }
    }
    if IsTagged(anns[0], "cursor") && WellFormed(anns[0]) {
      SelectionSettled(st1, n, anns[1..]);
    } else {
      RunFirstCursor(st1, n, anns[1..], c);
    }
  }

  /** Without sel or cursor, the selection and the cursor flag stay as they were. */
  lemma {:induction false} RunNoSelection(st: LineState, n: int, anns: seq<Json>)
    requires NoneTagged(anns, "sel") && NoneTagged(anns, "cursor")
    requires RunAnnotations(st, n, anns).Continue?
    ensures var st' := RunAnnotations(st, n, anns).st;
      st'.selStart == st.selStart && st'.selEnd == st.selEnd && st'.sawCursor == st.sawCursor
    decreases |anns|
  {
    if anns != [] {
      assert !IsTagged(anns[0], "sel") && !IsTagged(anns[0], "cursor");
      assert NoneTagged(anns[1..], "sel") && NoneTagged(anns[1..], "cursor") by {
        forall k | 0 <= k < |anns[1..]| ensures anns[1..][k] == anns[k + 1] { }
      }
      RunNoSelection(ApplyAnnotation(st, n, anns[0]).st, n, anns[1..]);
    }
  }

  // ---- the per-line properties, stated on whole payloads ----

  /**
   * A line [text, annotations...] whose annotations all read and fit is never
   * abandoned; built, it keeps its text and has one span per fg annotation.
   */
  lemma LineTextAndSpans(text: string, anns: seq<Json>)
    requires AllReadable(anns, Utf16Length(text))
    ensures ParseLine(JArr([JStr(text)] + anns)).Built? || ParseLine(JArr([JStr(text)] + anns)).Crashed?
    ensures ParseLine(JArr([JStr(text)] + anns)).Built? ==>
      ParseLine(JArr([JStr(text)] + anns)).line.text == text &&
      ParseLine(JArr([JStr(text)] + anns)).line.spans == FgSpans(anns)
  {
    var elems := [JStr(text)] + anns;
    assert elems[1..] == anns;
    RunSucceedsIff(Fresh, Utf16Length(text), anns);
    RunSpans(Fresh, Utf16Length(text), anns);
  }

  /**
   * An fg annotation that is read but reaches outside the text, with every
   * annotation before it readable, crashes the app.
   */
  lemma LineSpanOutside(text: string, anns: seq<Json>, k: int)
    requires 0 <= k < |anns| && forall j :: 0 <= j < k ==> Readable(anns[j], Utf16Length(text))
    requires IsTagged(anns[k], "fg") && WellFormed(anns[k])
    requires !Fits(anns[k].elems[1].n, anns[k].elems[2].n, Utf16Length(text))
    ensures ParseLine(JArr([JStr(text)] + anns)).Crashed?
  {
    var elems := [JStr(text)] + anns;
    assert elems[1..] == anns;
    RunStopsAt(Fresh, Utf16Length(text), anns, k);
  }

  /**
   * A sel annotation sets the selection to its (start, end), an unset start
   * falling back to the end; a selection outside the text crashes the app.
   */
  lemma LineWithSel(text: string, anns: seq<Json>, s: int, e: int)
    requires AllReadable(anns, Utf16Length(text)) && LastSel(anns) == Some((s, e)) && e != -1
    ensures var sel := (if s == -1 then e else s, e);
      && (ParseLine(JArr([JStr(text)] + anns)).Built? <==> SelectionFits(Some(sel), Utf16Length(text)))
      && (ParseLine(JArr([JStr(text)] + anns)).Built? ==> ParseLine(JArr([JStr(text)] + anns)).line.selection == Some(sel))
      && (!ParseLine(JArr([JStr(text)] + anns)).Built? ==> ParseLine(JArr([JStr(text)] + anns)).Crashed?)
  {
    var elems := [JStr(text)] + anns;
    assert elems[1..] == anns;
    RunSucceedsIff(Fresh, Utf16Length(text), anns);
    RunLastSel(Fresh, Utf16Length(text), anns, s, e);
  }

  /**
   * A cursor without any sel gives the zero-width selection (c, c) and marks
   * the cursor line; a column outside the text crashes the app.
   */
  lemma LineWithCaret(text: string, anns: seq<Json>, c: int)
    requires AllReadable(anns, Utf16Length(text)) && NoneTagged(anns, "sel") && FirstCursor(anns) == Some(c) && c != -1
    ensures ParseLine(JArr([JStr(text)] + anns)).Built? <==> 0 <= c <= Utf16Length(text)
    ensures ParseLine(JArr([JStr(text)] + anns)).Built? ==> ParseLine(JArr([JStr(text)] + anns)).line.selection == Some((c, c))
    ensures !ParseLine(JArr([JStr(text)] + anns)).Built? ==> ParseLine(JArr([JStr(text)] + anns)).Crashed?
    ensures ParseLine(JArr([JStr(text)] + anns)).sawCursor
  {
    var elems := [JStr(text)] + anns;
    assert elems[1..] == anns;
    RunSucceedsIff(Fresh, Utf16Length(text), anns);
    RunFirstCursor(Fresh, Utf16Length(text), anns, c);
  }

  /**
   * Offsets count UTF-16 code units: "\U{1F600}", one character that Java
   * stores as a surrogate pair, is coloured over [0, 2] without a crash, and
   * a span over [0, 3] crashes.
   */
  lemma LineWithSurrogatePair()
    ensures ParseLine(JArr([JStr("\U{1F600}"), JArr([JStr("fg"), JInt(0), JInt(2), JInt(255), JInt(0)])]))
         == Built(StyledLine("\U{1F600}", [Span(0, 2, 255)], None), false)
    ensures ParseLine(JArr([JStr("\U{1F600}"), JArr([JStr("fg"), JInt(0), JInt(3), JInt(255), JInt(0)])])).Crashed?
  {
    var text := "\U{1F600}";
    assert Utf16Length(text) == 2 by {
      assert text[1..] == [];
    }
    var fg := JArr([JStr("fg"), JInt(0), JInt(2), JInt(255), JInt(0)]);
    var bad := JArr([JStr("fg"), JInt(0), JInt(3), JInt(255), JInt(0)]);
    assert JArr([JStr(text), fg]).elems[1..] == [fg] && [fg][1..] == [];
    assert JArr([JStr(text), bad]).elems[1..] == [bad] && [bad][1..] == [];
    assert IntAt(fg.elems, 1) == Some(0) && IntAt(fg.elems, 2) == Some(2) && IntAt(fg.elems, 3) == Some(255);
    assert IntAt(bad.elems, 1) == Some(0) && IntAt(bad.elems, 2) == Some(3) && IntAt(bad.elems, 3) == Some(255);
    assert ApplyAnnotation(Fresh, 2, fg) == Continue(Fresh.(spans := [Span(0, 2, 255)]));
    assert ApplyAnnotation(Fresh, 2, bad) == Crash(false);
    assert RunAnnotations(Fresh.(spans := [Span(0, 2, 255)]), 2, []) == Continue(Fresh.(spans := [Span(0, 2, 255)]));
  }

  /** A line with neither sel nor cursor, its annotations readable, has no selection and is not the cursor line. */
  lemma LineWithoutSelection(text: string, anns: seq<Json>)
    requires AllReadable(anns, Utf16Length(text)) && NoneTagged(anns, "sel") && NoneTagged(anns, "cursor")
    ensures ParseLine(JArr([JStr(text)] + anns)) == Built(StyledLine(text, FgSpans(anns), None), false)
  {
    var elems := [JStr(text)] + anns;
    assert elems[1..] == anns;
    RunSucceedsIff(Fresh, Utf16Length(text), anns);
    RunSpans(Fresh, Utf16Length(text), anns);
    RunNoSelection(Fresh, Utf16Length(text), anns);
  }

  // ---- the builder updateLines shares between lines ----

  /**
   * What builder.clear() leaves in the one builder updateLines uses for all
   * the lines of an update: clear() removes the text, not the spans. Every
   * colour span set so far shrinks to offset 0 and, inclusive at both ends,
   * then widens over all of the next line's text; the selection marks, once
   * set, are points that the next line's text pushes to its end.
   */
  datatype Leftover = Leftover(colors: seq<int>, marked: bool)

  const NoLeftover: Leftover := Leftover([], false)

  /** The leftover colour spans over a text of n characters, oldest first. */
  function Stretched(colors: seq<int>, n: int): (r: seq<Span>)
    ensures |r| == |colors|
    ensures forall k :: 0 <= k < |r| ==> r[k] == Span(0, n, colors[k])
  {
    seq(|colors|, k requires 0 <= k < |colors| => Span(0, n, colors[k]))
  }

  function Colors(spans: seq<Span>): (r: seq<int>)
    ensures |r| == |spans|
    ensures forall k :: 0 <= k < |r| ==> r[k] == spans[k].color
  {
    seq(|spans|, k requires 0 <= k < |spans| => spans[k].color)
  }

  /**
   * A line as SpannableString.valueOf copies it out of the shared builder:
   * the leftover spans over its whole text, then its own; its own selection,
   * or else the leftover marks at the end of its text.
   */
  function WithLeftover(l: StyledLine, left: Leftover): StyledLine {
    var n := Utf16Length(l.text);
    StyledLine(l.text, Stretched(left.colors, n) + l.spans,
               if l.selection.None? && left.marked then Some((n, n)) else l.selection)
  }

  /** The leftovers once line l has been through the builder and the builder is cleared. */
  function After(left: Leftover, l: StyledLine): (r: Leftover)
    ensures |r.colors| == |left.colors| + |l.spans|
  {
    Leftover(left.colors + Colors(l.spans), left.marked || l.selection.Some?)
  }

  /** With nothing left over, the line is exactly what its own payload describes. */
  lemma NoLeftoverKeepsLine(l: StyledLine)
    ensures WithLeftover(l, NoLeftover) == l
  {
    assert Stretched([], Utf16Length(l.text)) + l.spans == l.spans;
  }

  /**
   * Through the shared builder a line keeps its text and its own spans, at the
   * end of its span list, and gains one span over its whole text per colour
   * left over; its own selection, when it has one, is kept.
   */
  lemma LeftoverWidensOverLine(l: StyledLine, left: Leftover)
    ensures WithLeftover(l, left).text == l.text
    ensures var sp := WithLeftover(l, left).spans;
      |sp| == |left.colors| + |l.spans| && sp[|left.colors|..] == l.spans
    ensures forall k :: 0 <= k < |left.colors| ==> WithLeftover(l, left).spans[k] == Span(0, Utf16Length(l.text), left.colors[k])
    ensures l.selection.Some? ==> WithLeftover(l, left).selection == l.selection
    ensures l.selection.None? ==> WithLeftover(l, left).selection == (if left.marked then Some((Utf16Length(l.text), Utf16Length(l.text))) else None)
  {
    var st := Stretched(left.colors, Utf16Length(l.text));
    assert (st + l.spans)[|st|..] == l.spans;
  }
}
