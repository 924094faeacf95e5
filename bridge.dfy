/**
 * XiBridge: the request-id counter, the table of pending response handlers,
 * the dispatch of each decoded incoming message, and the log of messages
 * written to the engine.
 */
module Bridge {
  import opened Wrappers
  import opened Json
  import opened Messages
  import Framing

  /**
   * The ResponseHandler objects stored in the table. The only handler the
   * core creates is XiView's render_lines completion, which remembers the
   * first line it asked for; the others (new_tab's, from the activity) are
   * opaque here.
   */
  datatype Handler = RenderLinesHandler(first: int) | ExternalHandler(tag: int)

  /** What processing one message asks its caller to run. */
  datatype Action =
    | NoAction
    | Invoke(handler: Handler, result: Json)        // handler.invoke(result)
    | Deliver(tab: string, update: seq<Member>)     // listener.onUpdate(tab, update)

  /** How processMessage reads a decoded line. */
  datatype Incoming =
    | Response(id: int, root: seq<Member>)          // has "id", and it is an integer
    | NotificationIn(name: string, params: seq<Member>)
    | Malformed                                     // the branch that throws JSONException

  /**
   * processMessage's reading of a decoded line: an object with an integer
   * "id" is a response, an object without "id" but with a string "method"
   * and an object "params" is a notification, and anything else (not an
   * object, an "id" that is not an integer, a missing or mistyped field)
   * throws the JSONException that is logged and dropped.
   */
  function Classify(line: Option<Json>): (c: Incoming)
    ensures c.Response? <==> line.Some? && line.value.JObj? && GetInt(line.value.members, "id").Some?
    ensures c.Response? ==> GetInt(line.value.members, "id") == Some(c.id) && c.root == line.value.members
    ensures c.NotificationIn? <==>
      && line.Some? && line.value.JObj? && !Has(line.value.members, "id")
      && GetString(line.value.members, "method").Some? && GetObject(line.value.members, "params").Some?
    ensures c.NotificationIn? ==>
      GetString(line.value.members, "method") == Some(c.name) && GetObject(line.value.members, "params") == Some(c.params)
  {
    match line
    case Some(JObj(root)) =>
      if Has(root, "id") then
        (match GetInt(root, "id") case Some(i) => Response(i, root) case None => Malformed)
      else
        (match (GetString(root, "method"), GetObject(root, "params"))
         case (Some(m), Some(p)) => NotificationIn(m, p)
         case _ => Malformed)
    case _ => Malformed
  }

  /** The ids carried by the requests of a message log, in the order written. */
  function RequestIds(log: seq<Outgoing>): seq<int> {
    if log == [] then []
    else
      RequestIds(log[..|log| - 1])
      + (match RequestIdOf(log[|log| - 1]) case Some(i) => [i] case None => [])
  }

  /** The same, as the engine reads it off the serialised messages. */
  function WireRequestIds(wire: seq<Json>): seq<int> {
    if wire == [] then []
    else
      WireRequestIds(wire[..|wire| - 1])
      + (match ReadOutbound(wire[|wire| - 1]) case Request(i, _, _) => [i] case _ => [])
  }

  /** The serialised form of a message log. */
  function Wires(log: seq<Outgoing>): (w: seq<Json>)
    ensures |w| == |log| && forall i :: 0 <= i < |log| ==> w[i] == ToJson(log[i])
  {
    if log == [] then [] else Wires(log[..|log| - 1]) + [ToJson(log[|log| - 1])]
  }

  /** 0, 1, ..., n - 1 */
  function Upto(n: nat): (r: seq<int>)
    ensures |r| == n && forall i :: 0 <= i < n ==> r[i] == i
  {
    if n == 0 then [] else Upto(n - 1) + [n - 1]
  }

  lemma RequestIdsAppend(log: seq<Outgoing>, m: Outgoing)
    ensures RequestIds(log + [m]) == RequestIds(log) + (match RequestIdOf(m) case Some(i) => [i] case None => [])
  {
    assert (log + [m])[..|log|] == log;
  }

  /** The ids the model keeps track of are the ids the engine sees on the wire. */
  lemma {:induction false} RequestIdsOnWire(log: seq<Outgoing>)
    ensures WireRequestIds(Wires(log)) == RequestIds(log)
    decreases |log|
  {
    if log != [] {
      var w := Wires(log);
      var last := log[|log| - 1];
      assert w[..|w| - 1] == Wires(log[..|log| - 1]);
      RequestIdsOnWire(log[..|log| - 1]);
      ToJsonIsRead(last);
    }
  }

  class XiBridge {
    var id: int
    var handlers: map<int, Handler>
    var hasListener: bool
    /** Every message handed to send(), in order; the text on the pipe is `Written()`. */
    var sent: seq<Outgoing>

    /**
     * Request ids start at 0 and go up by one per request, so the requests in
     * the log carry exactly 0, 1, ..., id - 1 and a pending handler is always
     * filed under an id already issued.
     */
    ghost predicate Valid()
      reads this
    {
      && 0 <= id
      && RequestIds(sent) == Upto(id)
      && forall k :: k in handlers ==> 0 <= k < id
    }

    function Written(): string
      reads this
    {
      Framing.Wire(Wires(sent))
    }

    /** The state the constructor leaves once the process is spawned. */
    constructor ()
      ensures Valid()
      ensures id == 0 && handlers == map[] && !hasListener && sent == []
    {
      id := 0;
      handlers := map[];
      hasListener := false;
      sent := [];
    }

    method SetUpdateListener(present: bool)
      modifies this`hasListener
      ensures hasListener == present
    {
      hasListener := present;
    }

    /** send: one serialised object, then "\n". */
    method Send(o: Outgoing)
      modifies this`sent
      ensures sent == old(sent) + [o]
      ensures Written() == old(Written()) + Framing.Encode(ToJson(o)) + "\n"
    {
      assert Wires(sent + [o]) == Wires(sent) + [ToJson(o)] by {
        assert (sent + [o])[..|sent|] == sent;
      }
      Framing.WireAppend(Wires(sent), ToJson(o));
      sent := sent + [o];
    }

    method SendNotification(name: string, params: Json)
      requires Valid()
      modifies this`sent
      ensures Valid()
      ensures sent == old(sent) + [Notify(name, params)]
    {
      RequestIdsAppend(sent, Notify(name, params));
      Send(Notify(name, params));
    }

    /** sendRequest: file the handler under the current id, send, then move the id on. */
    method SendRequest(name: string, params: Json, handler: Handler)
      requires Valid()
      modifies this`id, this`handlers, this`sent
      ensures Valid()
      ensures old(id) !in old(handlers)
      ensures handlers == old(handlers)[old(id) := handler]
      ensures id == old(id) + 1
      ensures sent == old(sent) + [Call(old(id), name, params)]
    {
      var o := Call(id, name, params);
      RequestIdsAppend(sent, o);
      assert RequestIds(sent + [o]) == Upto(id + 1);
      handlers := handlers[id := handler];
      id := id + 1;
      Send(o);
    }

    /** sendEdit(tab, name, editParams): the command inside an "edit" notification. */
    method SendEdit(tab: string, name: string, params: Json)
      requires Valid()
      modifies this`sent
      ensures Valid()
      ensures sent == old(sent) + [Edit(Command(tab, name, params))]
    {
      RequestIdsAppend(sent, Edit(Command(tab, name, params)));
      Send(Edit(Command(tab, name, params)));
    }

    /** The two-argument sendEdit: a command with the empty object as params. */
    method SendEditCommand(tab: string, name: string)
      requires Valid()
      modifies this`sent
      ensures Valid()
      ensures sent == old(sent) + [Edit(Command(tab, name, JObj([])))]
    {
      SendEdit(tab, name, JObj([]));
    }

    /** sendEditArray: like sendEdit, with positional (array) parameters. */
    method SendEditArray(tab: string, name: string, params: seq<Json>)
      requires Valid()
      modifies this`sent
      ensures Valid()
      ensures sent == old(sent) + [Edit(Command(tab, name, JArr(params)))]
    {
      SendEdit(tab, name, JArr(params));
    }

    /** sendEditRequest: the command inside an "edit" request, so it gets an id and a handler. */
    method SendEditRequest(tab: string, name: string, params: Json, handler: Handler)
      requires Valid()
      modifies this`id, this`handlers, this`sent
      ensures Valid()
      ensures old(id) !in old(handlers)
      ensures handlers == old(handlers)[old(id) := handler]
      ensures id == old(id) + 1
      ensures sent == old(sent) + [EditCall(old(id), Command(tab, name, params))]
    {
      var o := EditCall(id, Command(tab, name, params));
      RequestIdsAppend(sent, o);
      assert RequestIds(sent + [o]) == Upto(id + 1);
      handlers := handlers[id := handler];
      id := id + 1;
      Send(o);
    }

    /** sendNewTab: a top-level request with empty params. */
    method SendNewTab(handler: Handler)
      requires Valid()
      modifies this`id, this`handlers, this`sent
      ensures Valid()
      ensures old(id) !in old(handlers)
      ensures handlers == old(handlers)[old(id) := handler]
      ensures id == old(id) + 1
      ensures sent == old(sent) + [Call(old(id), "new_tab", JObj([]))]
    {
      SendRequest("new_tab", JObj([]), handler);
    }

    /** sendDeleteTab: a top-level notification {"tab": tab}. */
    method SendDeleteTab(tab: string)
      requires Valid()
      modifies this`sent
      ensures Valid()
      ensures sent == old(sent) + [Notify("delete_tab", JObj([Member("tab", JStr(tab))]))]
    {
      SendNotification("delete_tab", JObj([Member("tab", JStr(tab))]));
    }

    method SendInsert(tab: string, chars: string)
      requires Valid()
      modifies this`sent
      ensures Valid()
      ensures sent == old(sent) + [Edit(Command(tab, "insert", JObj([Member("chars", JStr(chars))])))]
    {
      SendEdit(tab, "insert", JObj([Member("chars", JStr(chars))]));
    }

    method SendOpen(tab: string, filename: string)
      requires Valid()
      modifies this`sent
      ensures Valid()
      ensures sent == old(sent) + [Edit(Command(tab, "open", JObj([Member("filename", JStr(filename))])))]
    {
      SendEdit(tab, "open", JObj([Member("filename", JStr(filename))]));
    }

    method SendSave(tab: string, filename: string)
      requires Valid()
      modifies this`sent
      ensures Valid()
      ensures sent == old(sent) + [Edit(Command(tab, "save", JObj([Member("filename", JStr(filename))])))]
    {
      SendEdit(tab, "save", JObj([Member("filename", JStr(filename))]));
    }

    method SendScroll(tab: string, firstLine: int, lastLine: int)
      requires Valid()
      modifies this`sent
      ensures Valid()
      ensures sent == old(sent) + [ScrollEdit(tab, firstLine, lastLine)]
    {
      SendEditArray(tab, "scroll", [JInt(firstLine), JInt(lastLine)]);
    }

    method SendClick(tab: string, line: int, column: int, modifiers: int, clickCount: int)
      requires Valid()
      modifies this`sent
      ensures Valid()
      ensures sent == old(sent)
        + [Edit(Command(tab, "click", JArr([JInt(line), JInt(column), JInt(modifiers), JInt(clickCount)])))]
    {
      SendEditArray(tab, "click", [JInt(line), JInt(column), JInt(modifiers), JInt(clickCount)]);
    }

    method SendDrag(tab: string, line: int, column: int, modifiers: int)
      requires Valid()
      modifies this`sent
      ensures Valid()
      ensures sent == old(sent) + [Edit(Command(tab, "drag", JArr([JInt(line), JInt(column), JInt(modifiers)])))]
    {
      SendEditArray(tab, "drag", [JInt(line), JInt(column), JInt(modifiers)]);
    }

    /** sendRenderLines: an edit request for [firstLine, lastLine), answered through handler. */
    method SendRenderLines(tab: string, firstLine: int, lastLine: int, handler: Handler)
      requires Valid()
      modifies this`id, this`handlers, this`sent
      ensures Valid()
      ensures old(id) !in old(handlers)
      ensures handlers == old(handlers)[old(id) := handler]
      ensures id == old(id) + 1
      ensures sent == old(sent) + [RenderLinesCall(old(id), tab, firstLine, lastLine)]
    {
      SendEditRequest(tab, "render_lines", RenderParams(firstLine, lastLine), handler);
    }

    /**
     * handleUpdate: forward (params.tab, params.update) to the listener if one
     * is set. It does no tab filtering; a missing field is swallowed here and
     * does not make processMessage fail.
     */
    function UpdateAction(params: seq<Member>): (a: Action)
      reads this
      ensures a != NoAction ==> hasListener && a.Deliver?
      ensures a.Deliver? <==> hasListener && GetString(params, "tab").Some? && GetObject(params, "update").Some?
      ensures a.Deliver? ==> GetString(params, "tab") == Some(a.tab) && GetObject(params, "update") == Some(a.update)
    {
      if !hasListener then NoAction
      else
        match (GetString(params, "tab"), GetObject(params, "update"))
        case (Some(t), Some(u)) => Deliver(t, u)
        case _ => NoAction
    }

    /**
     * processMessage. `line` is None when the text is not JSON. The handler is
     * invoked by the caller with the returned action; the table entry is
     * removed only once the result has been read.
     */
    method ProcessMessage(line: Option<Json>) returns (ok: bool, action: Action)
      requires Valid()
      modifies this`handlers
      ensures Valid()
      ensures !ok ==> action == NoAction && handlers == old(handlers)
      ensures handlers != old(handlers) ==> action.Invoke?
      ensures match Classify(line)
        case Malformed => !ok
        case Response(i, root) =>
          (i !in old(handlers) ==> ok && action == NoAction && handlers == old(handlers))
          && (i in old(handlers) && !Has(root, "result") ==> !ok && handlers == old(handlers))
          && (i in old(handlers) && Has(root, "result") ==>
                ok && action == Invoke(old(handlers)[i], Lookup(root, "result").value)
                && handlers == old(handlers) - {i} && i !in handlers)
        case NotificationIn(m, params) =>
          ok && handlers == old(handlers)
          && action == (if m == "update" then UpdateAction(params) else NoAction)
    {
      match Classify(line)
      case Malformed =>
        return false, NoAction;
      case Response(i, root) =>
        if i in handlers {
          match Lookup(root, "result")
          case None =>
            return false, NoAction;
          case Some(result) =>
            action := Invoke(handlers[i], result);
            handlers := handlers - {i};
        } else {
          action := NoAction;
        }
        return true, action;
      case NotificationIn(m, params) =>
        if m == "update" {
          action := UpdateAction(params);
        } else {
          action := NoAction;
        }
        return true, action;
    }
  }

  /** Ids never repeat: the requests of a valid log carry pairwise distinct ids. */
  lemma RequestIdsDistinct(b: XiBridge, i: int, j: int)
    requires b.Valid()
    requires 0 <= i < j < |RequestIds(b.sent)|
    ensures RequestIds(b.sent)[i] != RequestIds(b.sent)[j]
    ensures RequestIds(b.sent)[i] == i
  {
  }
}
