/**
 * Newline framing of the messages the bridge writes to the engine's standard
 * input (XiBridge.send): each message is one serialised JSON value followed
 * by "\n". `Encode` is a compact serialiser standing in for org.json's
 * `toString()`; what matters for the framing is that it escapes every
 * control character inside strings, so a serialised value never contains a
 * raw newline and the engine can split the stream back into messages.
 */
module Framing {
  import opened Json

  function DigitChar(d: int): (c: char)
    requires 0 <= d < 10
    ensures '0' <= c <= '9'
  {
    "0123456789"[d]
  }

  function HexChar(d: int): (c: char)
    requires 0 <= d < 16
    ensures c != '\n'
  {
    "0123456789abcdef"[d]
  }

  function NatToString(n: nat): (s: string)
    ensures |s| > 0 && forall i :: 0 <= i < |s| ==> '0' <= s[i] <= '9'
  {
    if n < 10 then [DigitChar(n)] else NatToString(n / 10) + [DigitChar(n % 10)]
  }

  function IntToString(n: int): (s: string)
    ensures '\n' !in s
  {
    if n < 0 then "-" + NatToString(-n) else NatToString(n)
  }

  /**
   * This model's stand-in for the escape JSONStringer applies to one character
   * of a string value: quote, backslash and the control characters. It keeps
   * '/' as it is, which Android's JSONStringer writes as "\\/"; either way no
   * newline reaches the wire, which is all the framing relies on.
   */
  function EscapeChar(c: char): (s: string)
    ensures '\n' !in s
  {
    if c == '"' then "\\\""
    else if c == '\\' then "\\\\"
    else if c == '\n' then "\\n"
    else if c == '\r' then "\\r"
    else if c == '\t' then "\\t"
    else if c as int == 8 then "\\b"
    else if c as int == 12 then "\\f"
    else if c < ' ' then "\\u00" + [HexChar(c as int / 16), HexChar(c as int % 16)]
    else [c]
  }

  function Escape(s: string): string {
    if s == [] then "" else EscapeChar(s[0]) + Escape(s[1..])
  }

  function Encode(j: Json): string
    decreases j
  {
    match j
    case JNull => "null"
    case JBool(b) => if b then "true" else "false"
    case JInt(n) => IntToString(n)
    case JStr(s) => "\"" + Escape(s) + "\""
    case JArr(elems) => "[" + EncodeElems(elems) + "]"
    case JObj(ms) => "{" + EncodeMembers(ms) + "}"
  }

  function EncodeElems(elems: seq<Json>): string
    decreases elems
  {
    if elems == [] then ""
    else Encode(elems[0]) + (if |elems| == 1 then "" else "," + EncodeElems(elems[1..]))
  }

  function EncodeMembers(ms: seq<Member>): string
    decreases ms
  {
    if ms == [] then ""
    else
      "\"" + Escape(ms[0].key) + "\":" + Encode(ms[0].value)
      + (if |ms| == 1 then "" else "," + EncodeMembers(ms[1..]))
  }

  lemma {:induction false} EscapeHasNoNewline(s: string)
    ensures '\n' !in Escape(s)
  {
    if s != [] {
      EscapeHasNoNewline(s[1..]);
    }
  }

  /** A serialised value is a single line: it holds no raw newline. */
  lemma {:induction false} EncodeHasNoNewline(j: Json)
    ensures '\n' !in Encode(j)
    decreases j
  {
    match j
    case JNull =>
    case JBool(b) =>
    case JInt(n) =>
    case JStr(s) => EscapeHasNoNewline(s);
    case JArr(elems) => ElemsHaveNoNewline(elems);
    case JObj(ms) => MembersHaveNoNewline(ms);
  }

  lemma {:induction false} ElemsHaveNoNewline(elems: seq<Json>)
    ensures '\n' !in EncodeElems(elems)
    decreases elems
  {
    if elems != [] {
      EncodeHasNoNewline(elems[0]);
      if |elems| > 1 {
        ElemsHaveNoNewline(elems[1..]);
      }
    }
  }

  lemma {:induction false} MembersHaveNoNewline(ms: seq<Member>)
    ensures '\n' !in EncodeMembers(ms)
    decreases ms
  {
    if ms != [] {
      EscapeHasNoNewline(ms[0].key);
      EncodeHasNoNewline(ms[0].value);
      if |ms| > 1 {
        MembersHaveNoNewline(ms[1..]);
      }
    }
  }

  /** The text written for a log of messages: each value followed by "\n". */
  function Wire(log: seq<Json>): string {
    if log == [] then "" else Encode(log[0]) + "\n" + Wire(log[1..])
  }

  function IndexOf(w: string, c: char): (i: nat)
    requires c in w
    ensures i < |w| && w[i] == c && c !in w[..i]
  {
    if w[0] == c then 0 else 1 + IndexOf(w[1..], c)
  }

  /** How the engine reads the stream: one message per newline-terminated line. */
  function SplitLines(w: string): seq<string>
    decreases |w|
  {
    if '\n' !in w then [] else var i := IndexOf(w, '\n'); [w[..i]] + SplitLines(w[i + 1..])
  }

  function EncodeAll(log: seq<Json>): (r: seq<string>)
    ensures |r| == |log| && forall k :: 0 <= k < |log| ==> r[k] == Encode(log[k])
  {
    if log == [] then [] else [Encode(log[0])] + EncodeAll(log[1..])
  }

  lemma {:induction false} IndexOfIsFirst(w: string, c: char, j: nat)
    requires j < |w| && w[j] == c && c !in w[..j]
    ensures IndexOf(w, c) == j
  {
    if j > 0 {
      assert w[0] == w[..j][0];
      assert w[1..][..j - 1] == w[..j][1..];
      IndexOfIsFirst(w[1..], c, j - 1);
    }
  }

  lemma SplitFirstLine(a: string, rest: string)
    requires '\n' !in a
    ensures SplitLines(a + "\n" + rest) == [a] + SplitLines(rest)
  {
    var w := a + "\n" + rest;
    assert w[|a|] == '\n';
    assert w[..|a|] == a;
    IndexOfIsFirst(w, '\n', |a|);
    var i := IndexOf(w, '\n');
    assert w[i + 1..] == rest;
  }

  /** Appending one message appends exactly its line to the written text. */
  lemma {:induction false} WireAppend(log: seq<Json>, m: Json)
    ensures Wire(log + [m]) == Wire(log) + Encode(m) + "\n"
  {
    if log == [] {
      assert [m][1..] == [];
    } else {
      assert (log + [m])[1..] == log[1..] + [m];
      WireAppend(log[1..], m);
    }
  }

  /** Splitting the written text at newlines gives back one line per message, in order. */
  lemma {:induction false} WireRoundTrip(log: seq<Json>)
    ensures SplitLines(Wire(log)) == EncodeAll(log)
  {
    if log != [] {
      EncodeHasNoNewline(log[0]);
      SplitFirstLine(Encode(log[0]), Wire(log[1..]));
      WireRoundTrip(log[1..]);
    }
  }
}
