# xi-android: bridge and viewport, modelled in Dafny

This project models the client core of xi-android, an Android front end for the
xi editor engine. It covers two classes:

- `XiBridge` talks to the engine process over newline-delimited JSON. It files a
  response handler under each request id, writes notifications and requests to
  the engine's standard input, and dispatches every decoded incoming line: a
  response goes to its pending handler, and an `update` notification goes to the
  registered listener.
- `XiView` keeps a sliding window of rendered line slots starting at document
  line `firstLine`. It fills the slots from `update` notifications and
  `render_lines` responses, rebuilding each styled line (text, colour spans,
  selection, cursor) from the line's annotations. It shifts the slots when the
  view scrolls, resizes them when the view changes size, and maps keys to edit
  commands.

Modules:

- Wrappers: `Option`.
- Json: decoded JSON values and the org.json accessors as partial lookups.
- Framing: the newline framing of what `send` writes.
- Messages: the message builders and the reading the engine applies to them.
- Bridge: the `XiBridge` class.
- Lines: the reconstruction of one line, and what the shared builder leaves from one line to the next.
- Viewport: the window arithmetic, the key map, the measured height, and the
  installation of a range of line payloads into the slots, as functions: as
  written, and as evidently intended.
- View: the `XiView` class, with its copy loops on the slot array.

The bridge keeps the log of messages it handed to `send` as the field `sent`.
The text on the pipe is `Written()`, that log serialised and framed. The view
keeps its slots in an `array`, and its scroll and resize operations are proved
against the functions of Viewport.

Where the system's written description and the code disagree, the model
follows the code:

- A line payload is read flat, as `[text, ann, ann, ...]` (XiView.java:165-168),
  not as `[text, [ann, ...]]`.
- Updates for another tab are filtered in `XiView.handleUpdate`
  (XiView.java:122), not in the bridge. The bridge forwards every update.
- After a scroll, the slots for newly exposed lines keep their old contents
  until the render_lines response arrives. The copy loops never clear them
  (`Viewport.ScrolledLeavesExposedStale`).
- When several lines carry a cursor, the last one wins, not the first
  (`Viewport.InstallLinesCursor`).
- `updateLines` builds every line of an update in one `SpannableStringBuilder`
  (XiView.java:160) and empties it with `clear()` (XiView.java:209), which
  removes the text and keeps the spans. A colour span, set inclusive at both
  ends, shrinks to offset 0 and then covers all of the next line's text; the
  selection marks stay behind and end up at the end of a later line. The
  model carries these leftovers from line to line (`Lines.Leftover`).
- A colour span or a selection offset outside the line's text makes
  `setSpan` or `setSelection` throw an IndexOutOfBoundsException. Nothing
  catches it (only JSONException is caught), so the app ends there. The model
  returns this outcome as `crashed`, with the state as far as the code got.
- The view class runs `updateLines` as written: the shared builder, and
  cursorLine counted from the first installed line (XiView.java:174). The
  evidently intended version, `Viewport.InstallLinesCorrected`, is proved
  beside it (see "## Findings").
- The style bits of an `fg` annotation are never read, so spans carry no
  bold, italic or underline.
- A response whose id has a handler but no `result` throws inside
  `processMessage`, so the handler stays filed.
- A response whose id has no handler is dropped without a log.

## Model

| member | source | states |
|---|---|---|
| Json.LookupFindsKey | app/src/main/java/io/github/adrientetar/xi/objects/XiBridge.java:95-99 | `has`/`get` on a decoded object succeed exactly for the keys the object carries, and return a value stored under that key |
| Json.LookupLastWins | app/src/main/java/io/github/adrientetar/xi/objects/XiBridge.java:95-99 | of two members with the same key, the later one is found, as org.json keeps the last duplicate |
| Framing.EncodeHasNoNewline | app/src/main/java/io/github/adrientetar/xi/objects/XiBridge.java:165 | a serialised JSON value never contains a raw newline, so it fits on one line of the stream |
| Framing.WireAppend | app/src/main/java/io/github/adrientetar/xi/objects/XiBridge.java:163-171 | one `send` appends exactly the serialised object followed by "\n" to the written text |
| Framing.WireRoundTrip | app/src/main/java/io/github/adrientetar/xi/objects/XiBridge.java:163-171 | splitting the written text at newlines gives back one serialised message per sent message, in order |
| Messages.RenderParamsFields | app/src/main/java/io/github/adrientetar/xi/objects/XiBridge.java:314-323 | the render_lines params carry `first_line` and `last_line` with the requested bounds, and no other key |
| Messages.EnvelopeIsRead | app/src/main/java/io/github/adrientetar/xi/objects/XiBridge.java:203-214 | the edit envelope has exactly the keys method, tab and params, and reads back as the command it wraps |
| Messages.NotificationIsRead | app/src/main/java/io/github/adrientetar/xi/objects/XiBridge.java:173-183 | a notification has exactly the keys method and params, and reads back as a notification with that method and those params |
| Messages.RequestIsRead | app/src/main/java/io/github/adrientetar/xi/objects/XiBridge.java:185-198 | a request has exactly the keys id, method and params, and reads back as a request with that id, method and params |
| Messages.ToJsonIsRead | app/src/main/java/io/github/adrientetar/xi/objects/XiBridge.java:173-240 | "id" is among a message's keys exactly when it is a request, and then it carries the request's id; an edit notification or edit request gives back its command from its envelope and is never read as the other kind |
| Bridge.Classify | app/src/main/java/io/github/adrientetar/xi/objects/XiBridge.java:92-111 | a decoded line is a response exactly when it is an object with an integer "id", and then carries that id and the object; it is an incoming notification exactly when it is an object without "id" but with a string "method" and an object "params", and then carries those two; everything else is malformed |
| Bridge.RequestIdsOnWire | app/src/main/java/io/github/adrientetar/xi/objects/XiBridge.java:185-198 | the request ids the engine reads off the serialised log are exactly the ids the bridge recorded, in order |
| Bridge.RequestIdsDistinct | app/src/main/java/io/github/adrientetar/xi/objects/XiBridge.java:186-196 | in a valid bridge, the i-th request sent carries id i, so no two requests share an id |
| Bridge.XiBridge.constructor | app/src/main/java/io/github/adrientetar/xi/objects/XiBridge.java:62-78 | a new bridge has id 0, no pending handlers, no listener and nothing sent, and satisfies the id invariant |
| Bridge.XiBridge.SetUpdateListener | app/src/main/java/io/github/adrientetar/xi/objects/XiBridge.java:56-58 | the listener is set or cleared as asked |
| Bridge.XiBridge.Send | app/src/main/java/io/github/adrientetar/xi/objects/XiBridge.java:163-171 | the message is appended to the log, and the written text grows by its serialisation plus "\n" |
| Bridge.XiBridge.SendNotification | app/src/main/java/io/github/adrientetar/xi/objects/XiBridge.java:173-183 | appends one notification, and keeps the id invariant without touching the id or the handlers |
| Bridge.XiBridge.SendRequest | app/src/main/java/io/github/adrientetar/xi/objects/XiBridge.java:185-198 | files the handler under the current id, which was free, appends the request with that id, moves the id on by one, and keeps the invariant that the log's request ids are 0..id-1 |
| Bridge.XiBridge.SendEditCommand | app/src/main/java/io/github/adrientetar/xi/objects/XiBridge.java:200-202 | appends an edit notification whose command has the empty object as params |
| Bridge.XiBridge.SendEdit | app/src/main/java/io/github/adrientetar/xi/objects/XiBridge.java:203-214 | appends one edit notification carrying (tab, method, params) |
| Bridge.XiBridge.SendEditArray | app/src/main/java/io/github/adrientetar/xi/objects/XiBridge.java:216-227 | appends one edit notification whose params are the given array |
| Bridge.XiBridge.SendEditRequest | app/src/main/java/io/github/adrientetar/xi/objects/XiBridge.java:229-240 | files the handler under the current free id, and appends an edit request with that id carrying the command |
| Bridge.XiBridge.SendNewTab | app/src/main/java/io/github/adrientetar/xi/objects/XiBridge.java:242-244 | appends a new_tab request with empty params under a fresh id, with its handler filed |
| Bridge.XiBridge.SendDeleteTab | app/src/main/java/io/github/adrientetar/xi/objects/XiBridge.java:246-255 | appends a top-level delete_tab notification {"tab": tab} |
| Bridge.XiBridge.SendInsert | app/src/main/java/io/github/adrientetar/xi/objects/XiBridge.java:257-266 | appends an insert edit with params {"chars": chars} |
| Bridge.XiBridge.SendOpen | app/src/main/java/io/github/adrientetar/xi/objects/XiBridge.java:268-277 | appends an open edit with params {"filename": filename} |
| Bridge.XiBridge.SendSave | app/src/main/java/io/github/adrientetar/xi/objects/XiBridge.java:279-288 | appends a save edit with params {"filename": filename} |
| Bridge.XiBridge.SendScroll | app/src/main/java/io/github/adrientetar/xi/objects/XiBridge.java:290-295 | appends a scroll edit with the positional params [firstLine, lastLine] |
| Bridge.XiBridge.SendClick | app/src/main/java/io/github/adrientetar/xi/objects/XiBridge.java:297-304 | appends a click edit with [line, column, modifiers, clickCount] |
| Bridge.XiBridge.SendDrag | app/src/main/java/io/github/adrientetar/xi/objects/XiBridge.java:306-312 | appends a drag edit with [line, column, modifiers] |
| Bridge.XiBridge.SendRenderLines | app/src/main/java/io/github/adrientetar/xi/objects/XiBridge.java:314-324 | appends a render_lines edit request for [firstLine, lastLine) under a fresh id, with its handler filed under that id |
| Bridge.XiBridge.UpdateAction | app/src/main/java/io/github/adrientetar/xi/objects/XiBridge.java:120-134 | an update is delivered exactly when a listener is set and params hold a string "tab" and an object "update", and then it carries those two values; otherwise nothing happens |
| Bridge.XiBridge.ProcessMessage | app/src/main/java/io/github/adrientetar/xi/objects/XiBridge.java:92-118 | a malformed line fails and changes nothing. A response for an unknown id is dropped. A response without "result" fails and keeps the handler. A response with a result invokes the filed handler once and removes it. An "update" notification gives the listener's action, and any other method does nothing. The id invariant is kept |
| Lines.Utf16Length | app/src/main/java/io/github/adrientetar/xi/widgets/XiView.java:166-185 | the length `setSpan` and `setSelection` check offsets against counts UTF-16 code units: at least one and at most two per character |
| Lines.Utf16LengthOfBmp | app/src/main/java/io/github/adrientetar/xi/widgets/XiView.java:166-185 | a text without characters beyond U+FFFF has as many UTF-16 units as characters |
| Lines.LineWithSurrogatePair | app/src/main/java/io/github/adrientetar/xi/widgets/XiView.java:166-202 | an emoji line is two units long: an fg span over 0..2 builds, and one over 0..3 crashes |
| Lines.ApplyAnnotation | app/src/main/java/io/github/adrientetar/xi/widgets/XiView.java:168-190 | one annotation goes on exactly when it is read without a JSON error and, for fg, its offsets lie in order within the text, measured in UTF-16 units; a well-formed fg outside the text crashes; a failing cursor annotation still flags the line when selEnd was unset |
| Lines.BuildLine | app/src/main/java/io/github/adrientetar/xi/widgets/XiView.java:165-203 | the annotation loop over one payload, with the range checks of setSpan and setSelection, computes the line reconstruction `ParseLine`: built, abandoned by a JSONException, or crashed |
| Lines.RunSucceedsIff | app/src/main/java/io/github/adrientetar/xi/widgets/XiView.java:167-196 | the annotation loop finishes exactly when every annotation is well formed and every fg span lies within the text, in UTF-16 units |
| Lines.RunStopsAt | app/src/main/java/io/github/adrientetar/xi/widgets/XiView.java:167-196 | the loop stops at the first annotation it cannot apply: it crashes exactly when that annotation is well formed (its span is out of range), and is abandoned exactly when it is not |
| Lines.ParseLineBuiltIff | app/src/main/java/io/github/adrientetar/xi/widgets/XiView.java:164-202 | a line is built exactly when its payload is an array that starts with a string, all of its annotations are well formed with their spans within the text, and the selection they settle on lies within the text, both measured in UTF-16 units |
| Lines.RunSpans | app/src/main/java/io/github/adrientetar/xi/widgets/XiView.java:178-185 | the spans after the loop are the earlier ones followed by one span per fg annotation, in order |
| Lines.SelectionSettled | app/src/main/java/io/github/adrientetar/xi/widgets/XiView.java:171-177 | with no sel annotation left, once selEnd is set, further cursors change neither the selection nor the cursor flag |
| Lines.RunLastSel | app/src/main/java/io/github/adrientetar/xi/widgets/XiView.java:186-189 | the last sel annotation decides selStart and selEnd |
| Lines.CursorAfterSelectionIgnored | app/src/main/java/io/github/adrientetar/xi/widgets/XiView.java:171-172 | a cursor annotation read after selEnd is set can be removed without changing the result |
| Lines.RunFirstCursor | app/src/main/java/io/github/adrientetar/xi/widgets/XiView.java:173-176 | with no sel, the first cursor sets selEnd to its column, leaves selStart unset and flags the line |
| Lines.RunNoSelection | app/src/main/java/io/github/adrientetar/xi/widgets/XiView.java:167-191 | with neither sel nor cursor annotations, the selection and the cursor flag stay as they were |
| Lines.LineTextAndSpans | app/src/main/java/io/github/adrientetar/xi/widgets/XiView.java:165-202 | from an empty builder, a line whose annotations all read and fit is never abandoned (it may still crash on its selection); built, it keeps its text and carries exactly the fg spans, in order |
| Lines.LineSpanOutside | app/src/main/java/io/github/adrientetar/xi/widgets/XiView.java:178-185 | an fg annotation that is read but reaches outside the text, all earlier annotations readable, crashes the app |
| Lines.LineWithSel | app/src/main/java/io/github/adrientetar/xi/widgets/XiView.java:186-202 | the selection is the last sel's (start, end), with an unset start falling back to the end; the line is built exactly when both lie within the text, and crashes otherwise |
| Lines.LineWithCaret | app/src/main/java/io/github/adrientetar/xi/widgets/XiView.java:171-202 | a cursor without sel gives the zero-width selection (c, c) and flags the line; the line is built exactly when c lies within the text, and crashes otherwise |
| Lines.LineWithoutSelection | app/src/main/java/io/github/adrientetar/xi/widgets/XiView.java:165-203 | from an empty builder, a line with neither sel nor cursor whose annotations read and fit is built with its text, its fg spans, no selection, and no cursor flag |
| Lines.NoLeftoverKeepsLine | app/src/main/java/io/github/adrientetar/xi/widgets/XiView.java:160-203 | a line appended to a builder with nothing left over is copied out exactly as its payload describes it |
| Lines.LeftoverWidensOverLine | app/src/main/java/io/github/adrientetar/xi/widgets/XiView.java:179-209 | a line copied out of the shared builder keeps its text and its own spans, after one span over its whole text per colour left over; its own selection is kept, and without one it gets the leftover marks at the end of its text |
| Viewport.JavaDivTruncates | app/src/main/java/io/github/adrientetar/xi/widgets/XiView.java:360 | `t / lineHeight` rounds toward zero: down for t >= 0, up for t < 0 |
| Viewport.ScrollOffsetBounds | app/src/main/java/io/github/adrientetar/xi/widgets/XiView.java:378 | yOffset lies in (-lineHeight, 0] for a non-negative scroll position, and in [0, lineHeight) for a negative one |
| Viewport.RenderRange | app/src/main/java/io/github/adrientetar/xi/widgets/XiView.java:411-416 | the request is clamped into both the asked range and the window, and is dropped exactly when the clamped bounds coincide |
| Viewport.ExposedIsNewlyVisible | app/src/main/java/io/github/adrientetar/xi/widgets/XiView.java:361-377 | the range a scroll asks for holds exactly the lines of the new window that were not in the old one |
| Viewport.ForwardRequestIsExposed | app/src/main/java/io/github/adrientetar/xi/widgets/XiView.java:367 | a downward scroll's request [prev+len, next+len), once clamped, is exactly the exposed range |
| Viewport.BackwardRequestIsExposed | app/src/main/java/io/github/adrientetar/xi/widgets/XiView.java:375 | an upward scroll's request [next, prev), once clamped, is exactly the exposed range |
| Viewport.GrowRequestIsNewTail | app/src/main/java/io/github/adrientetar/xi/widgets/XiView.java:396 | growing the window asks for exactly the new tail of slots |
| Viewport.ScrolledKeepsLines | app/src/main/java/io/github/adrientetar/xi/widgets/XiView.java:361-377 | a document line in both the old and the new window keeps its slot contents across the shift |
| Viewport.ScrolledLeavesExposedStale | app/src/main/java/io/github/adrientetar/xi/widgets/XiView.java:363-373 | a slot whose line was not in the old window keeps its old contents after the shift |
| Viewport.ScrolledZero | app/src/main/java/io/github/adrientetar/xi/widgets/XiView.java:361-377 | a scroll within the same line leaves the slots unchanged |
| Viewport.ScrollTargetCases | app/src/main/java/io/github/adrientetar/xi/widgets/XiView.java:136-147 | a line above the viewport scrolls to its top; one below scrolls so its bottom meets the viewport's bottom; one inside causes no scroll |
| Viewport.ScrollTargetShowsLine | app/src/main/java/io/github/adrientetar/xi/widgets/XiView.java:136-147 | after the scroll, or when there is none, the whole line lies in the viewport, if it fits |
| Viewport.KeyCommand | app/src/main/java/io/github/adrientetar/xi/widgets/XiView.java:216-249 | the movement keys map to their command plus "_and_modify_selection" when shift is held; enter, delete, forward delete and tab map to their command whatever the modifiers; every other key maps to none |
| Viewport.MeasuredHeight | app/src/main/java/io/github/adrientetar/xi/widgets/XiView.java:340-348 | EXACTLY takes the given size; otherwise the height is totalLines * lineHeight, capped by the size under AT_MOST, and never below the minimum |
| Viewport.InstallLinesSlots | app/src/main/java/io/github/adrientetar/xi/widgets/XiView.java:154-211 | as written: a slot is overwritten exactly when its line is in both the window and the payload range and no earlier such line failed; it then holds its line with the leftovers of the lines installed before it; every other slot is kept |
| Viewport.InstallLinesOutside | app/src/main/java/io/github/adrientetar/xi/widgets/XiView.java:155-156 | slots whose line is outside the payload range are untouched |
| Viewport.InstallLinesAllBuilt | app/src/main/java/io/github/adrientetar/xi/widgets/XiView.java:163-211 | as written, when every line reconstruction (`Parsed`) builds, every slot in the intersection holds its line with the earlier lines' leftovers, and the first installed line exactly as its reconstruction describes it |
| Viewport.InstallLinesIdempotent | app/src/main/java/io/github/adrientetar/xi/widgets/XiView.java:154-213 | installing the same payload twice leaves the slots as installing it once |
| Viewport.InstallLinesCursor | app/src/main/java/io/github/adrientetar/xi/widgets/XiView.java:162-208 | as written: cursorLine is the offset from the first installed line of the last processed line that recorded a cursor, the failing line included, or -1; cursorText is the last built cursor line as installed, or is kept |
| Viewport.InstallLinesCursorInRange | app/src/main/java/io/github/adrientetar/xi/widgets/XiView.java:162-177 | as written, a set cursorLine lies in [0, end - start) and counts from the first installed line to a line that recorded a cursor |
| Viewport.InstallLinesCrash | app/src/main/java/io/github/adrientetar/xi/widgets/XiView.java:154-211 | as written, updateLines ends the app exactly when the first line of the intersection that does not build crashed rather than failed to read |
| Viewport.InstallLinesCarriesEarlierLines | app/src/main/java/io/github/adrientetar/xi/widgets/XiView.java:160-209 | as written, a line installed after another line of the same update carries a span over its whole text for every colour the earlier line set, and the caret at its end when the earlier line had a selection and it has none |
| Viewport.CorrectedSlotsFresh | app/src/main/java/io/github/adrientetar/xi/widgets/XiView.java:154-211 | corrected: a slot is overwritten exactly in the same cases as written, with exactly the line its payload describes |
| Viewport.CorrectedCursor | app/src/main/java/io/github/adrientetar/xi/widgets/XiView.java:162-208 | corrected: cursorLine is the slot index of the last processed line that recorded a cursor, or -1; cursorText is the last built cursor line, or is kept |
| Viewport.CorrectedCursorInWindow | app/src/main/java/io/github/adrientetar/xi/widgets/XiView.java:162-177 | corrected: a set cursorLine names a slot of the window whose line is in the payload range and recorded a cursor |
| Viewport.CorrectedCursorSlot | app/src/main/java/io/github/adrientetar/xi/widgets/XiView.java:174-208 | corrected: when the cursor's line was built, the slot cursorLine names holds cursorText |
| Viewport.AsWrittenAgainstCorrected | app/src/main/java/io/github/adrientetar/xi/widgets/XiView.java:160-211 | the code as written writes the same slots as the corrected version and crashes on the same inputs; each written slot, and cursorText, is the corrected line plus the builder's leftovers; cursorLine is off by the distance from firstLine to the first installed line |
| Viewport.AsWrittenSlotsAgainstCorrected | app/src/main/java/io/github/adrientetar/xi/widgets/XiView.java:160-211 | the slot part of the comparison: same slots written, each the corrected line plus the leftovers |
| Viewport.AsWrittenCursorAgainstCorrected | app/src/main/java/io/github/adrientetar/xi/widgets/XiView.java:162-208 | the cursor part of the comparison: cursorText is the corrected one plus the leftovers, and cursorLine is shifted by start - firstLine |
| Viewport.AsWrittenCursorMisplaced | app/src/main/java/io/github/adrientetar/xi/widgets/XiView.java:174 | on a concrete update, the code as written points cursorLine at an unwritten slot while the cursor line is elsewhere; the corrected version points at the right slot |
| Viewport.AsWrittenSpansCarryOver | app/src/main/java/io/github/adrientetar/xi/widgets/XiView.java:160-209 | on a concrete update, the code as written shows the second line in the first line's colour with a caret at its end; the corrected version shows it plain |
| View.ShiftForward | app/src/main/java/io/github/adrientetar/xi/widgets/XiView.java:362-365 | the forward copy loop leaves the array equal to `Scrolled(old, d)` |
| View.ShiftBackward | app/src/main/java/io/github/adrientetar/xi/widgets/XiView.java:370-373 | the backward copy loop leaves the array equal to `Scrolled(old, -d)` |
| View.CopyOf | app/src/main/java/io/github/adrientetar/xi/widgets/XiView.java:393 | Arrays.copyOf gives a fresh array of the new length, with the common prefix copied and the rest empty |
| View.InstallInto | app/src/main/java/io/github/adrientetar/xi/widgets/XiView.java:154-213 | the updateLines loop on the slot array, with its shared builder, leaves the slots, cursorLine, cursorText and crash outcome that `InstallLines` (as written) describes |
| View.LinesOf | app/src/main/java/io/github/adrientetar/xi/widgets/XiView.java:134-135 | the update has lines to install exactly when it holds an integer first_line and an array lines, and then they are those two values |
| View.ScrollLineOf | app/src/main/java/io/github/adrientetar/xi/widgets/XiView.java:138 | there is a scroll-to line exactly when the update holds a scrollto array whose element 0 is an integer, and then it is that element; no array gives none |
| View.XiView.constructor | app/src/main/java/io/github/adrientetar/xi/widgets/XiView.java:89 | a view not laid out yet has 0 / lineHeight + 2 = 2 empty slots, no bridge and no tab, and satisfies the view invariant |
| View.XiView.ActivateBridge | app/src/main/java/io/github/adrientetar/xi/widgets/XiView.java:97-118 | binds the bridge and the tab, and registers the view as the bridge's update listener |
| View.XiView.UpdateLines | app/src/main/java/io/github/adrientetar/xi/widgets/XiView.java:154-213 | the window's slots, cursorLine and cursorText become the as-written installation of the payload into the old slots, and the crash outcome is returned |
| View.XiView.SendRenderLines | app/src/main/java/io/github/adrientetar/xi/widgets/XiView.java:411-425 | nothing is sent when the clamped range is empty. Otherwise one render_lines request for the clamped range is sent, and its handler, which installs at the clamped first line, is filed under the request's id |
| View.XiView.OnScrollChanged | app/src/main/java/io/github/adrientetar/xi/widgets/XiView.java:353-380 | the window moves to t / lineHeight, and yOffset is set. Slots whose line stays in view shift with the window, and cursorLine moves with them. When the line changed, exactly two messages are sent: a render_lines request for the newly exposed lines, then a scroll report of the new window. Otherwise nothing is sent |
| View.XiView.ScrollForward | app/src/main/java/io/github/adrientetar/xi/widgets/XiView.java:359-368 | the downward branch of onScrollChanged, with the same promises |
| View.XiView.RealignForward | app/src/main/java/io/github/adrientetar/xi/widgets/XiView.java:362-368 | after the top moved down from prev: the slot shift, the cursor shift, then the exposed-lines request and the scroll report |
| View.XiView.ScrollBackward | app/src/main/java/io/github/adrientetar/xi/widgets/XiView.java:369-376 | the upward branch of onScrollChanged, with the same promises |
| View.XiView.RealignBackward | app/src/main/java/io/github/adrientetar/xi/widgets/XiView.java:370-376 | after the top moved up from prev: the slot shift, the cursor shift, then the exposed-lines request and the scroll report |
| View.XiView.OnSizeChanged | app/src/main/java/io/github/adrientetar/xi/widgets/XiView.java:382-399 | with a bridge, the window gets h / lineHeight + 2 slots, keeping the common prefix and leaving new slots empty. When the length changes, a scroll report of the new window is sent, followed, when the window grew, by a render_lines request for exactly the new slots. With no bridge, or an unchanged length, the slots stay the same and nothing is sent. Unless the window grew, the bridge's handlers and id are unchanged |
| View.XiView.Resize | app/src/main/java/io/github/adrientetar/xi/widgets/XiView.java:392-398 | the resizing branch: a fresh array with the prefix kept, the scroll report, and the render request for the new tail when the window grew |
| View.XiView.HandleUpdate | app/src/main/java/io/github/adrientetar/xi/widgets/XiView.java:120-152 | an update for another tab changes nothing, and neither does a non-integer height. A new height is taken and requests a layout only when it differs. Then the lines are installed as written, and, unless that crashed, the view scrolls to the scrollto line when it is outside the viewport; when the scroll moves the window, the exposed-lines request and the scroll report are sent and the request's handler filed. yOffset becomes firstLine * lineHeight - scrollY after a scroll and is kept otherwise. A missing first_line or lines leaves the slots, the scroll position and yOffset as they were |
| View.XiView.ApplyLines | app/src/main/java/io/github/adrientetar/xi/widgets/XiView.java:134-148 | installs first_line/lines into the slots as written; unless that crashed, scrolls to the scrollto target measured from the scroll position before the update, sending the two scroll messages and filing the handler when the window moves; after a scroll yOffset is firstLine * lineHeight - scrollY, and without one it is kept |
| View.XiView.TakeHeight | app/src/main/java/io/github/adrientetar/xi/widgets/XiView.java:127-133 | a present height must be an integer; a different one replaces totalLines and requests one layout |
| View.XiView.ScrollIntoView | app/src/main/java/io/github/adrientetar/xi/widgets/XiView.java:136-148 | the scroll position becomes the scrollto target when there is one, yOffset becomes firstLine * lineHeight - scrollY, with the slots and cursorLine shifted as by onScrollChanged; when the window moves, exactly the exposed-lines request and the scroll report are sent and the handler filed under the request id; otherwise nothing is sent and yOffset is kept |
| View.XiView.OnKeyDown | app/src/main/java/io/github/adrientetar/xi/widgets/XiView.java:215-257 | a mapped key sends exactly one edit with that command and empty params; any other key sends nothing and goes to the key listener |
| View.XiView.OnListenerKey | app/src/main/java/io/github/adrientetar/xi/widgets/XiView.java:106-117 | after the stock listener, the typed content is sent as an insert when the key was handled or content is non-empty; the handled flag is returned unchanged |
| View.XiView.OnBridgeAction | app/src/main/java/io/github/adrientetar/xi/widgets/XiView.java:418-423 | a render_lines result is installed as written at the handler's first line; the scroll position, yOffset, totalLines, the layout count and the bridge's log, handlers and id stay as they were. An update has exactly the effect stated for handleUpdate. No action, or any other handler, leaves the whole view and the bridge alone |

## Left out

- Process start-up, the threads and the pipes are not modelled: `Runtime.exec`, `WatcherThread`, `activateWatcher`, `deactivateWatcher` and `finish`. The model receives each already-read line as a parameter of `ProcessMessage`.
- `getUpdateListener` is a plain accessor, so it has no member; the listener's presence is the field `hasListener`.
- Text parsing of an incoming line is left out. A line that is not JSON reaches `ProcessMessage` as `None`.
- Framing.Encode: a compact serialiser stands in for org.json's `toString()`. It agrees with it on logical content and on escaping control characters, not byte for byte.
- The org.json coercions are left out. `getInt` on a numeric string and `getString` on a number both fail in the model, while org.json converts them.
- Java's 32-bit `int` overflow is left out: the ids, the line numbers and the pixel products are unbounded integers.
- `yOffset` is a `float` in the source. It holds an integer value there, so the model keeps an `int`.
- `yOffset` is not part of `XiView.Valid`. Every scroll sets it (`OnScrollChanged` states its value), and `ScrollOffsetBounds` gives its range.
- View.XiView.ScrollIntoView, ApplyLines and HandleUpdate state yOffset after a scroll as firstLine * lineHeight - scrollY. When the target equals the current position, Android's `setScrollY` makes no `onScrollChanged` call and yOffset keeps its value. The model does call `OnScrollChanged`. Both give the same value, because every operation that sets yOffset sets it to this expression, and the constructor starts with all three at 0. The model does not state this relation as an invariant.
- Drawing and layout are left out: `onDraw`, `invalidate`, `StaticLayout` and the text paint. A slot holds the `StyledLine` the layout would be built from.
- The width half of `onMeasure` is left out because it needs each layout's pixel width; only `MeasuredHeight` is modelled.
- `onTouchEvent` and `getLinesPosition` are left out: they handle focus, the input method and float geometry, and send nothing.
- `TextKeyListener`'s own key handling is outside the model. `OnListenerKey` takes its result and typed content as parameters, and `OnKeyDown` returns `Delegated` for an unmapped key.
- Null dereferences in the source become preconditions. Examples: `OnKeyDown` without a bridge, or a render_lines result that is not an array (the class cast at XiView.java:421).
- View.XiView.OnScrollChanged requires a bridge whenever the line changes, because the source dereferences it there.
- The wire format is abstracted: `sent` logs the `Outgoing` value of each send, and `ToJson` gives its JSON object. What `send` writes for it is stated by `Written()`.
- `setScrollY` is modelled as a direct call of `OnScrollChanged`, which the framework makes when the position changes. A call with an unchanged position only resets the same values.
- `requestLayout` is counted, not modelled (`layoutRequests`).
- The end of the process on an uncaught IndexOutOfBoundsException is not modelled: the operations return `crashed`, stop where the code threw, and the caller does nothing further.
- Text lengths follow Java's `String.length()`: UTF-16 code units, with a character beyond U+FFFF counted as two (`Utf16Length`). The model does not check that an offset falls between the two halves of such a character.
- The span objects are reduced to their offsets and colour; Android's own bookkeeping of span flags and of the order of spans with equal offsets is not modelled.
- Framing.EscapeChar writes '/' as it is, where Android's JSONStringer writes `\/`. Neither form contains a newline, which is all the framing relies on.
- Json.Lookup finds the last member with a key, as org.json's decoder keeps the last duplicate; objects the model builds have distinct keys.
- Logging (`Log.w`, `Log.e`, `printStackTrace`) is left out. The selection is kept as a pair of integers, not as Android `Selection` spans.

## Findings

| source | as written | input that shows it | evidently intended | confidence | as-written member | corrected member |
|---|---|---|---|---|---|---|
| app/src/main/java/io/github/adrientetar/xi/widgets/XiView.java:174 | `cursorLine` is set to `i - start`, counted from the first installed line | a 5-slot window at line 0 gets an update with first_line 3 and two lines, the cursor on line 4: cursorLine becomes 1, slot 1 was never written, and the cursor line sits in slot 4 | `i - this.firstLine`, the slot index that onDraw (line 296) compares with and onScrollChanged (lines 366, 374) shifts | high; not executed | Viewport.AsWrittenCursorMisplaced | Viewport.CorrectedCursorSlot |
| app/src/main/java/io/github/adrientetar/xi/widgets/XiView.java:209 | one `SpannableStringBuilder` serves every line, and `builder.clear()` removes the text but keeps the spans and the selection marks | a 2-slot window at line 0 gets lines ["a", fg 0..1 colour 255, cursor 1] and ["bb"]: slot 1 shows "bb" in colour 255 with a caret at 2 | a builder emptied of spans too (`clearSpans()`, or a new builder per line), so that each line shows only its own annotations | medium; not executed | Viewport.AsWrittenSpansCarryOver | Viewport.CorrectedSlotsFresh |
