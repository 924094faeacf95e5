/**
 * The outbound message shapes of XiBridge's `send*` builders, together with
 * the reading the engine applies to them: a message with an integer "id" is
 * a request, one without is a notification, and every per-document command
 * is a notification (or request) with method "edit" whose params are the
 * envelope {"method", "tab", "params"}.
 */
module Messages {
  import opened Wrappers
  import opened Json

  datatype Outbound =
    | Request(id: int, name: string, params: Json)
    | Notification(name: string, params: Json)
    | Unreadable

  /** A per-document command inside an "edit" envelope. */
  datatype Command = Command(tab: string, name: string, params: Json)

  /** The engine's reading of a top-level message. */
  function ReadOutbound(msg: Json): Outbound {
    match msg
    case JObj(ms) =>
      (match (Lookup(ms, "method"), Lookup(ms, "params"), Lookup(ms, "id"))
       case (Some(JStr(m)), Some(p), None) => Notification(m, p)
       case (Some(JStr(m)), Some(p), Some(JInt(i))) => Request(i, m, p)
       case _ => Unreadable)
    case _ => Unreadable
  }

  /** The engine's reading of an "edit" envelope. */
  function ReadEnvelope(params: Json): Option<Command> {
    match params
    case JObj(ms) =>
      (match (Lookup(ms, "method"), Lookup(ms, "tab"), Lookup(ms, "params"))
       case (Some(JStr(m)), Some(JStr(t)), Some(p)) => Some(Command(t, m, p))
       case _ => None)
    case _ => None
  }

  /** The command carried by an "edit" notification, if the message is one. */
  function ReadEditNotification(msg: Json): Option<Command> {
    match ReadOutbound(msg)
    case Notification("edit", p) => ReadEnvelope(p)
    case _ => None
  }

  /** The id and command carried by an "edit" request, if the message is one. */
  function ReadEditRequest(msg: Json): Option<(int, Command)> {
    match ReadOutbound(msg)
    case Request(i, "edit", p) =>
      (match ReadEnvelope(p) case Some(c) => Some((i, c)) case None => None)
    case _ => None
  }

  function ObjectKeys(j: Json): set<string> {
    if j.JObj? then Keys(j.members) else {}
  }

  function Members(j: Json): seq<Member> {
    if j.JObj? then j.members else []
  }

  /** sendNotification: {"method": name, "params": params}, no "id". */
  function NotificationMessage(name: string, params: Json): Json {
    JObj([Member("method", JStr(name)), Member("params", params)])
  }

  /** sendRequest: {"id": id, "method": name, "params": params}. */
  function RequestMessage(id: int, name: string, params: Json): Json {
    JObj([Member("id", JInt(id)), Member("method", JStr(name)), Member("params", params)])
  }

  /** The envelope put inside "edit" by sendEdit, sendEditArray and sendEditRequest. */
  function Envelope(c: Command): Json {
    JObj([Member("method", JStr(c.name)), Member("tab", JStr(c.tab)), Member("params", c.params)])
  }

  /** The params of a render_lines command: {"first_line": firstLine, "last_line": lastLine}. */
  function RenderParams(firstLine: int, lastLine: int): Json
  {
    JObj([Member("first_line", JInt(firstLine)), Member("last_line", JInt(lastLine))])
  }

  /** The engine finds both bounds of a render_lines request, and nothing else. */
  lemma RenderParamsFields(firstLine: int, lastLine: int)
    ensures GetInt(Members(RenderParams(firstLine, lastLine)), "first_line") == Some(firstLine)
    ensures GetInt(Members(RenderParams(firstLine, lastLine)), "last_line") == Some(lastLine)
    ensures ObjectKeys(RenderParams(firstLine, lastLine)) == {"first_line", "last_line"}
  {
    var ms := RenderParams(firstLine, lastLine).members;
    LookupTwo(ms[0], ms[1], "first_line");
    LookupTwo(ms[0], ms[1], "last_line");
  }

  /**
   * What one send* call hands to send(), before it is turned into a JSON
   * object: a plain notification or request, or a per-document command sent
   * inside an "edit" notification or request.
   */
  datatype Outgoing =
    | Notify(name: string, params: Json)
    | Call(id: int, name: string, params: Json)
    | Edit(cmd: Command)
    | EditCall(id: int, cmd: Command)

  /** The JSON object send() serialises for an outgoing message. */
  function ToJson(o: Outgoing): Json {
    match o
    case Notify(name, params) => NotificationMessage(name, params)
    case Call(id, name, params) => RequestMessage(id, name, params)
    case Edit(c) => NotificationMessage("edit", Envelope(c))
    case EditCall(id, c) => RequestMessage(id, "edit", Envelope(c))
  }

  /** The render_lines edit request for [firstLine, lastLine) under request id `id`. */
  function RenderLinesCall(id: int, tab: string, firstLine: int, lastLine: int): Outgoing {
    EditCall(id, Command(tab, "render_lines", RenderParams(firstLine, lastLine)))
  }

  /** The scroll edit notification reporting the window [firstLine, lastLine). */
  function ScrollEdit(tab: string, firstLine: int, lastLine: int): Outgoing {
    Edit(Command(tab, "scroll", JArr([JInt(firstLine), JInt(lastLine)])))
  }

  /** The id a message carries, if it is a request. */
  function RequestIdOf(o: Outgoing): Option<int> {
    match o
    case Call(id, _, _) => Some(id)
    case EditCall(id, _) => Some(id)
    case _ => None
  }

  /** The envelope reads back as the command it wraps, and has exactly its three keys. */
  lemma EnvelopeIsRead(c: Command)
    ensures ReadEnvelope(Envelope(c)) == Some(c)
    ensures ObjectKeys(Envelope(c)) == {"method", "tab", "params"}
  {
    var ms := Envelope(c).members;
    LookupThree(ms[0], ms[1], ms[2], "method");
    LookupThree(ms[0], ms[1], ms[2], "tab");
    LookupThree(ms[0], ms[1], ms[2], "params");
  }

  /** A notification has no "id" and reads back as its method and params. */
  lemma NotificationIsRead(name: string, params: Json)
    ensures ObjectKeys(NotificationMessage(name, params)) == {"method", "params"}
    ensures ReadOutbound(NotificationMessage(name, params)) == Notification(name, params)
  {
    var ms := NotificationMessage(name, params).members;
    LookupTwo(ms[0], ms[1], "method");
    LookupTwo(ms[0], ms[1], "params");
    LookupTwo(ms[0], ms[1], "id");
  }

  /** A request carries its id and reads back as id, method and params. */
  lemma RequestIsRead(id: int, name: string, params: Json)
    ensures ObjectKeys(RequestMessage(id, name, params)) == {"id", "method", "params"}
    ensures ReadOutbound(RequestMessage(id, name, params)) == Request(id, name, params)
  {
    var ms := RequestMessage(id, name, params).members;
    LookupThree(ms[0], ms[1], ms[2], "method");
    LookupThree(ms[0], ms[1], ms[2], "params");
    LookupThree(ms[0], ms[1], ms[2], "id");
  }

  /**
   * How the engine reads each outgoing message: "id" is among the keys
   * exactly for requests and carries the request's id, and an edit command
   * comes back out of its envelope.
   */
  lemma ToJsonIsRead(o: Outgoing)
    ensures ObjectKeys(ToJson(o)) == if RequestIdOf(o).Some? then {"id", "method", "params"} else {"method", "params"}
    ensures ReadOutbound(ToJson(o)).Request? <==> RequestIdOf(o).Some?
    ensures RequestIdOf(o).Some? ==> ReadOutbound(ToJson(o)).id == RequestIdOf(o).value
    ensures o.Notify? ==> ReadOutbound(ToJson(o)) == Notification(o.name, o.params)
    ensures o.Call? ==> ReadOutbound(ToJson(o)) == Request(o.id, o.name, o.params)
    ensures o.Edit? ==> ReadEditNotification(ToJson(o)) == Some(o.cmd) && ReadEditRequest(ToJson(o)) == None
    ensures o.EditCall? ==> ReadEditRequest(ToJson(o)) == Some((o.id, o.cmd)) && ReadEditNotification(ToJson(o)) == None
  {
    match o
    case Notify(name, params) =>
      NotificationIsRead(name, params);
    case Call(id, name, params) =>
      RequestIsRead(id, name, params);
    case Edit(c) =>
      NotificationIsRead("edit", Envelope(c));
      EnvelopeIsRead(c);
    case EditCall(id, c) =>
      RequestIsRead(id, "edit", Envelope(c));
      EnvelopeIsRead(c);
  }
}
