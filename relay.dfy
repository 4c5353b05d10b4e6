/** The line relay of `stream_agent_response`: the agent API's
    Server-Sent-Events body, already split into lines, is rewritten one line
    at a time into the strings the proxy streams to the browser. The JSON
    library is a parameter: `json.loads` as a parse that may fail,
    `json.dumps` as a serialiser. */
module Relay {
  import opened Wrappers
  import opened Text
  import opened Json

  /** `json.loads` (None when it raises `JSONDecodeError`) and `json.dumps`. */
  datatype Codec = Codec(parse: string -> Option<Json>, dump: Json -> string)

  const EventPrefix: string := "event:"
  const DataPrefix: string := "data:"

  /** The `detail` of the `HTTPException` raised on a non-200 answer. */
  function ErrorDetail(body: string): (d: string)
    ensures StartsWith(d, "Cortex API error: ") && d[|"Cortex API error: "|..] == body
  {
    "Cortex API error: " + body
  }

  /** The four shapes of line the relay tells apart, checked in the source's
      order: blank first, then a raw `event:` prefix, then a raw `data:`
      prefix. A line with whitespace before `event:` is an other line. */
  datatype LineKind = Blank | EventLine | DataLine | OtherLine

  function KindOf(line: string): LineKind {
    if Strip(line) == [] then Blank
    else if StartsWith(line, EventPrefix) then EventLine
    else if StartsWith(line, DataPrefix) then DataLine
    else OtherLine
  }

  /** What the relay sends for one input line, without its final newline.
      None when `filter_event_data` raises: the setting is on and the
      payload parsed to something that is not an object, so `.items()`
      fails and the exception escapes the generator. */
  function RewriteLine(removeSql: bool, codec: Codec, line: string): Option<string> {
    match KindOf(line)
    case Blank => Some("")
    case EventLine => Some("event: " + Strip(line[|EventPrefix|..]))
    case DataLine =>
      var dataStr := Strip(line[|DataPrefix|..]);
      (match codec.parse(dataStr)
       case None => Some("data: " + dataStr)
       case Some(data) =>
         if removeSql && !data.JObj? then None
         else Some("data: " + codec.dump(Filtered(removeSql, data))))
    case OtherLine => Some(line)
  }

  /** Each yielded string ends in one newline. */
  function Frame(text: string): (out: string)
    ensures Unframe(out) == text
  {
    text + "\n"
  }

  /** A yielded string as the next reader of the stream splits it off:
      without its final newline. */
  function Unframe(out: string): string {
    if out != [] && out[|out| - 1] == '\n' then out[..|out| - 1] else out
  }

  function Unframed(outs: seq<string>): (texts: seq<string>)
    ensures |texts| == |outs|
  {
    if outs == [] then [] else [Unframe(outs[0])] + Unframed(outs[1..])
  }

  /** How the stream ends: the non-200 `HTTPException` before any line is
      read, every line relayed, or an exception raised by the filter after
      the strings in `sent` have been yielded. */
  datatype Outcome =
    | HttpError(status: int, detail: string)
    | Completed(sent: seq<string>)
    | Interrupted(sent: seq<string>)

  function Prepend(prefix: seq<string>, o: Outcome): Outcome {
    match o
    case HttpError(_, _) => o
    case Completed(s) => Completed(prefix + s)
    case Interrupted(s) => Interrupted(prefix + s)
  }

  lemma PrependTwice(p: seq<string>, q: seq<string>, o: Outcome)
    ensures Prepend(p, Prepend(q, o)) == Prepend(p + q, o)
  {
  }


  /** The body of a 200 answer, relayed line by line. */
  function RelayLines(removeSql: bool, codec: Codec, lines: seq<string>): (o: Outcome)
    ensures !o.HttpError?
  {
    if lines == [] then Completed([])
    else
      match RewriteLine(removeSql, codec, lines[0])
      case None => Interrupted([])
      case Some(text) => Prepend([Frame(text)], RelayLines(removeSql, codec, lines[1..]))
  }

  /** The whole of `stream_agent_response` once the request is sent. */
  function Relay(removeSql: bool, codec: Codec, status: int, body: string, lines: seq<string>): Outcome {
    if status != 200 then HttpError(status, ErrorDetail(body))
    else RelayLines(removeSql, codec, lines)
  }

  /** `stream_agent_response`: the status check, then the loop over
      `aiter_lines()` that yields one string per line. */
  method StreamAgentResponse(removeSql: bool, codec: Codec, status: int, body: string, lines: seq<string>)
    returns (o: Outcome)
    ensures status != 200 ==> o == HttpError(status, ErrorDetail(body))
    ensures o == Relay(removeSql, codec, status, body, lines)
  {
    if status != 200 {
      return HttpError(status, ErrorDetail(body));
    }
    var sent: seq<string> := [];
    var rest := lines;  // what `aiter_lines()` has still to deliver
    while rest != []
      invariant RelayLines(removeSql, codec, lines) == Prepend(sent, RelayLines(removeSql, codec, rest))
    {
      var line := rest[0];
      var text: string;
      match KindOf(line) {
        case Blank =>
          text := "";
        case EventLine =>
          text := "event: " + Strip(line[|EventPrefix|..]);
        case DataLine =>
          var dataStr := Strip(line[|DataPrefix|..]);
          var parsed := codec.parse(dataStr);
          if parsed.None? {
            text := "data: " + dataStr;
          } else if removeSql && !parsed.value.JObj? {
            // `filter_event_data` raises on `.items()`.
            assert sent + [] == sent;
            return Interrupted(sent);
          } else {
            var filtered := FilterEventData(removeSql, parsed.value);
            text := "data: " + codec.dump(filtered);
          }
        case OtherLine =>
          text := line;
      }
      PrependTwice(sent, [Frame(text)], RelayLines(removeSql, codec, rest[1..]));
      sent := sent + [Frame(text)];
      rest := rest[1..];
    }
    return Completed(sent);
  }

  // ---------------------------------------------------------------------
  // Properties of the relay.
  // ---------------------------------------------------------------------

  /** A 200 body yields at most one string per input line, and one for every
      line exactly when no line makes the filter raise. */
  lemma {:induction false} RelayLinesCount(removeSql: bool, codec: Codec, lines: seq<string>)
    ensures |RelayLines(removeSql, codec, lines).sent| <= |lines|
    ensures RelayLines(removeSql, codec, lines).Completed? <==> |RelayLines(removeSql, codec, lines).sent| == |lines|
  {
    if lines != [] {
      RelayLinesCount(removeSql, codec, lines[1..]);
      var o := RelayLines(removeSql, codec, lines);
      var rest := RelayLines(removeSql, codec, lines[1..]);
      match RewriteLine(removeSql, codec, lines[0]) {
        case None =>
          assert o == Interrupted([]);
        case Some(t) =>
          assert o.sent == [Frame(t)] + rest.sent;
      }
    }
  }

  /** An interrupted relay stops at the first line it has not sent, and that
      line is one on which the filter raises. */
  lemma {:induction false} RelayLinesStopsAt(removeSql: bool, codec: Codec, lines: seq<string>)
    ensures RelayLines(removeSql, codec, lines).Interrupted? ==>
      && |RelayLines(removeSql, codec, lines).sent| < |lines|
      && RewriteLine(removeSql, codec, lines[|RelayLines(removeSql, codec, lines).sent|]).None?
  {
    if lines != [] {
      RelayLinesStopsAt(removeSql, codec, lines[1..]);
      var o := RelayLines(removeSql, codec, lines);
      var rest := RelayLines(removeSql, codec, lines[1..]);
      match RewriteLine(removeSql, codec, lines[0]) {
        case None =>
          assert o == Interrupted([]);
        case Some(t) =>
          assert o.sent == [Frame(t)] + rest.sent;
          assert o.Interrupted? ==> lines[|o.sent|] == lines[1..][|rest.sent|];
      }
    }
  }

  /** Each string sent is the framed rewrite of the input line at the same
      position, so the output follows the input order. */
  lemma {:induction false} RelayLinesContent(removeSql: bool, codec: Codec, lines: seq<string>)
    ensures var o := RelayLines(removeSql, codec, lines);
      && |o.sent| <= |lines|
      && forall i :: 0 <= i < |o.sent| ==>
           RewriteLine(removeSql, codec, lines[i]).Some?
           && o.sent[i] == Frame(RewriteLine(removeSql, codec, lines[i]).value)
  {
    if lines != [] {
      RelayLinesContent(removeSql, codec, lines[1..]);
      match RewriteLine(removeSql, codec, lines[0]) {
        case None =>
        case Some(t) =>
          var o := RelayLines(removeSql, codec, lines);
          var rest := RelayLines(removeSql, codec, lines[1..]);
          assert o.sent == [Frame(t)] + rest.sent;
          forall i | 0 < i < |o.sent|
            ensures o.sent[i] == rest.sent[i - 1] && lines[i] == lines[1..][i - 1]
          {
          }
      }
    }
  }

  /** Relaying a body in two pieces is relaying it whole: the output of the
      first piece, followed by that of the second unless the first stopped. */
  lemma {:induction false} RelayLinesAppend(removeSql: bool, codec: Codec, a: seq<string>, b: seq<string>)
    ensures RelayLines(removeSql, codec, a + b) ==
      match RelayLines(removeSql, codec, a)
      case Completed(s) => Prepend(s, RelayLines(removeSql, codec, b))
      case _ => RelayLines(removeSql, codec, a)
  {
    if a == [] {
      assert a + b == b;
    } else {
      assert (a + b)[0] == a[0] && (a + b)[1..] == a[1..] + b;
      RelayLinesAppend(removeSql, codec, a[1..], b);
      match RewriteLine(removeSql, codec, a[0]) {
        case None =>
        case Some(t) =>
          var rest := RelayLines(removeSql, codec, a[1..]);
          if rest.Completed? {
            PrependTwice([Frame(t)], rest.sent, RelayLines(removeSql, codec, b));
          }
      }
    }
  }

  /** The relay fails on a line exactly when the setting is on and the line
      is a `data:` line whose payload parses to something other than an
      object; a line of no known shape is echoed. */
  lemma RewriteLineFails(removeSql: bool, codec: Codec, line: string)
    ensures RewriteLine(removeSql, codec, line).None? <==>
      && removeSql
      && KindOf(line) == DataLine
      && codec.parse(Strip(line[|DataPrefix|..])).Some?
      && !codec.parse(Strip(line[|DataPrefix|..])).value.JObj?
    ensures KindOf(line) == OtherLine ==> RewriteLine(removeSql, codec, line) == Some(line)
  {
  }

  /** With the setting off the filter never raises, so every line of a 200
      body is relayed. */
  lemma {:induction false} RelayLinesCompleteWhenOff(codec: Codec, lines: seq<string>)
    ensures RelayLines(false, codec, lines).Completed?
    ensures |RelayLines(false, codec, lines).sent| == |lines|
  {
    if lines != [] {
      RewriteLineFails(false, codec, lines[0]);
      RelayLinesCompleteWhenOff(codec, lines[1..]);
    }
  }

  /** A rewritten line is of the same kind as the line it came from: blank
      stays blank, an `event:` line stays one, so does a `data:` line, and
      any other line is echoed unchanged. */
  lemma RewriteLineKeepsKind(removeSql: bool, codec: Codec, line: string)
    requires RewriteLine(removeSql, codec, line).Some?
    ensures KindOf(RewriteLine(removeSql, codec, line).value) == KindOf(line)
  {
    var t := RewriteLine(removeSql, codec, line).value;
    match KindOf(line)
    case Blank =>
    case EventLine =>
      assert t[..|EventPrefix|] == EventPrefix;
      StripNonBlank(t, 0);
    case DataLine =>
      assert t[..|DataPrefix|] == DataPrefix;
      StripNonBlank(t, 0);
    case OtherLine =>
  }

  /** `json.dumps(j)` is read back by `json.loads` as `j`, and has no
      whitespace on either end. */
  ghost predicate ReadsBack(codec: Codec, j: Json) {
    codec.parse(codec.dump(j)) == Some(j) && Trimmed(codec.dump(j))
  }

  /** What the relay needs of the JSON library for a second pass to change
      nothing: every payload it serialises again, the filtered form of a
      value `json.loads` returned, is read back as itself. */
  ghost predicate RoundTripsFiltered(removeSql: bool, codec: Codec) {
    forall s :: codec.parse(s).Some? && (!removeSql || codec.parse(s).value.JObj?) ==>
      ReadsBack(codec, Filtered(removeSql, codec.parse(s).value))
  }

  /** A library that behaves like Python's `json` meets that need: `loads`
      returns dicts without a key twice and only numbers of the kind
      `representable` accepts, and `dumps` of any such value is read back as
      itself. The filter keeps both properties. */
  lemma LibraryRoundTripsFiltered(removeSql: bool, codec: Codec, representable: real -> bool)
    requires forall s :: codec.parse(s).Some? ==>
      WellFormed(codec.parse(s).value) && NumbersIn(codec.parse(s).value, representable)
    requires forall j :: WellFormed(j) && NumbersIn(j, representable) ==> ReadsBack(codec, j)
    ensures RoundTripsFiltered(removeSql, codec)
  {
    forall s | codec.parse(s).Some? && (!removeSql || codec.parse(s).value.JObj?)
      ensures ReadsBack(codec, Filtered(removeSql, codec.parse(s).value))
    {
      var j := codec.parse(s).value;
      if removeSql {
        ScrubWellFormed(j);
        ScrubNumbersIn(j, representable);
      }
    }
  }

  /** An `event:` line as this relay writes it is relayed unchanged. */
  lemma EventLineIsFixed(removeSql: bool, codec: Codec, name: string)
    requires Trimmed(name)
    ensures RewriteLine(removeSql, codec, "event: " + name) == Some("event: " + name)
  {
    var t := "event: " + name;
    assert t[..|EventPrefix|] == EventPrefix;
    StripNonBlank(t, 0);
    assert KindOf(t) == EventLine;
    assert t[|EventPrefix|..] == " " + name;
    StripAfterBlank(name);
  }

  /** A `data:` line as this relay writes it is a `data:` line again, and its
      payload is read back verbatim. */
  lemma DataLinePayload(codec: Codec, payload: string)
    requires Trimmed(payload)
    ensures KindOf("data: " + payload) == DataLine
    ensures Strip(("data: " + payload)[|DataPrefix|..]) == payload
  {
    var t := "data: " + payload;
    assert t[..|DataPrefix|] == DataPrefix;
    assert t[..|EventPrefix|] != EventPrefix by { assert t[0] != EventPrefix[0]; }
    StripNonBlank(t, 0);
    assert t[|DataPrefix|..] == " " + payload;
    StripAfterBlank(payload);
  }

  /** Relaying a line that this relay already produced gives it back. */
  lemma RewriteLineIdempotent(removeSql: bool, codec: Codec, line: string)
    requires RoundTripsFiltered(removeSql, codec)
    requires RewriteLine(removeSql, codec, line).Some?
    ensures var t := RewriteLine(removeSql, codec, line).value;
            RewriteLine(removeSql, codec, t) == Some(t)
  {
    match KindOf(line)
    case Blank =>
    case EventLine =>
      StripSpec(line[|EventPrefix|..]);
      EventLineIsFixed(removeSql, codec, Strip(line[|EventPrefix|..]));
    case DataLine =>
      var dataStr := Strip(line[|DataPrefix|..]);
      match codec.parse(dataStr) {
        case None =>
          StripSpec(line[|DataPrefix|..]);
          DataLinePayload(codec, dataStr);
        case Some(data) =>
          var filtered := Filtered(removeSql, data);
          assert ReadsBack(codec, filtered);
          DataLinePayload(codec, codec.dump(filtered));
          FilteredIdempotent(removeSql, data);
      }
    case OtherLine =>
  }

  /** A proxy placed behind this one, with the same setting and a codec that
      reads its own filtered output back, passes every string this one sent through unchanged. */
  lemma {:induction false} RelayLinesIdempotent(removeSql: bool, codec: Codec, lines: seq<string>)
    requires RoundTripsFiltered(removeSql, codec)
    ensures !RelayLines(removeSql, codec, lines).HttpError?
    ensures var sent := RelayLines(removeSql, codec, lines).sent;
            RelayLines(removeSql, codec, Unframed(sent)) == Completed(sent)
  {
    if lines != [] {
      RelayLinesIdempotent(removeSql, codec, lines[1..]);
      match RewriteLine(removeSql, codec, lines[0])
      case None =>
      case Some(t) =>
        RewriteLineIdempotent(removeSql, codec, lines[0]);
        var sent := RelayLines(removeSql, codec, lines).sent;
        var rest := RelayLines(removeSql, codec, lines[1..]).sent;
        assert sent == [Frame(t)] + rest;
        assert sent[1..] == rest;
        assert Unframed(sent)[0] == t && Unframed(sent)[1..] == Unframed(rest);
    }
  }
}
