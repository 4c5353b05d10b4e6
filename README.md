# Cortex agent proxy: SQL scrubbing and event-stream relay

This project models the one piece of logic in the backend of the Cortex
Agent component (`backend/app/agent.py`): the proxy that forwards a
Server-Sent-Events answer of the Cortex Agent API to the browser. There are
two parts:

- **The SQL scrubber** (`should_filter_field`, `filter_event_data`). When
  the `REMOVE_SQL_FROM_RESPONSE` setting is on, every `"sql"` member is
  removed from an event payload. The scrubber recurses into member values
  that are objects and into lists whose elements are objects. With the
  setting off, the payload passes through unchanged.
- **The line relay** (`stream_agent_response`). Any status other than 200
  raises an `HTTPException` with the status and the body. Otherwise each
  line of the body becomes one string, in order:
  - a blank line becomes `"\n"`;
  - an `event:` line is sent again with its name stripped;
  - a `data:` line whose payload parses as JSON is sent with its payload
    filtered and serialised again;
  - a `data:` line whose payload does not parse is sent with the stripped
    raw payload;
  - any other line is echoed.

Modules:

- `Wrappers` (`wrappers.dfy`): `Option`.
- `Text` (`text.dfy`): Python's `str.strip()` and `str.startswith()`,
  over exactly the characters `str.isspace()` accepts.
- `Json` (`json.dfy`): the JSON value type. `Scrub` is the specification
  of the scrubber. `FilterEventData` and `FilterList` are the source's loop
  and list comprehension, proved against `Scrub`. The lemmas state what the
  scrubber promises.
- `Relay` (`relay.dfy`): `RewriteLine` is the per-line rewrite.
  `RelayLines` and `Relay` specify the whole stream.
  `StreamAgentResponse` is the source's loop, proved equal to `Relay`. It
  takes lines one at a time from the front of what `aiter_lines()` has
  still to deliver. The lemmas cover the shape of the output, relaying in
  pieces, line kinds and idempotence.

The JSON library is a parameter. A `Codec` holds `parse` (`json.loads`,
`None` when it raises `JSONDecodeError`) and `dump` (`json.dumps`). The
`REMOVE_SQL_FROM_RESPONSE` setting is a `bool` parameter (`removeSql`). The
HTTP status, the error body (already decoded) and the lines of the answer
(already split by `aiter_lines`) are parameters too.

Two behaviours of the code are modelled as written:

- `filter_event_data` has no case for a list inside a list. An object inside
  a nested list keeps its `"sql"` member (`Json.NestedListKeepsSql`).
  "Has no sql field" (`Json.SqlFree`) is therefore defined along the paths
  the scrubber walks.
- With the setting on, a `data:` payload that parses to something other
  than an object makes `filter_event_data` fail on `.items()`. That error
  is not a `JSONDecodeError`, so it escapes the generator after the earlier
  strings were sent. The model returns `Interrupted(sent)` for this case.
  `FilterEventData` itself requires an object when the setting is on,
  which is what its `Dict` signature demands.

`should_filter_field` is never called in the source: `filter_event_data`
compares keys with `"sql"` itself. `Json.FilteredKeys` proves that the two
agree.

The relay forwards lines; it does not decode events. Unlike an SSE client,
it does not drop blank lines or lines of unknown shape. A line with
whitespace before `event:` is not an event line and is echoed.

## Model

| member | source | states |
|---|---|---|
| `Json.ShouldFilterField` | backend/app/agent.py:53-55 | True exactly when the setting is on and the key is `"sql"`; with the setting off no key is filtered |
| `Json.FilterEventData` | backend/app/agent.py:58-86 | With the setting off the payload is returned unchanged; with it on, the result is `Scrub` of the payload, built by the loop one member at a time |
| `Json.FilterList` | backend/app/agent.py:78-82 | The list comprehension yields `ScrubItems` of the list: object elements go through `filter_event_data`, the others are kept |
| `Json.ScrubIsSqlFree` | backend/app/agent.py:72-85 | With the setting on, no `"sql"` key remains in the top object, in objects reached through member values, or in object elements of lists reached that way |
| `Json.SqlFreeIsFixed` | backend/app/agent.py:72-85 | A value that already has no `"sql"` field on those paths is returned exactly as it was |
| `Json.ScrubFixpoint` | backend/app/agent.py:58-86 | The scrubber leaves a value unchanged if and only if the value is sql-free |
| `Json.ScrubIdempotent` | backend/app/agent.py:58-86 | Scrubbing twice gives the same value as scrubbing once |
| `Json.FilteredIdempotent` | backend/app/agent.py:58-86 | `filter_event_data` is idempotent under either setting, and with the setting on it returns an object |
| `Json.KeptKeysWhenOff` | backend/app/agent.py:53-55 | With the setting off, `should_filter_field` rejects no key |
| `Json.ScrubFieldsKeys` | backend/app/agent.py:73-85 | The scrubbed object's keys are the original keys that `should_filter_field` does not reject, in their original order |
| `Json.FilteredKeys` | backend/app/agent.py:53-75 | For either setting, the filtered object keeps exactly the keys `should_filter_field` lets through, in order |
| `Json.ScrubFieldsMembers` | backend/app/agent.py:73-84 | A member is in the result if and only if it is the scrubbed form of a non-`"sql"` member of the input; members with scalar values are copied verbatim |
| `Json.ScrubItemsPointwise` | backend/app/agent.py:78-82 | Lists keep their length and order; object elements are scrubbed in place; other elements, nested lists included, are untouched |
| `Json.ScrubFieldsKeysFromInput` | backend/app/agent.py:72-85 | Every key of the result is a key of the input |
| `Json.ScrubFieldsUnique` | backend/app/agent.py:72-85 | A dict without duplicate keys gives a dict without duplicate keys |
| `Json.ScrubWellFormed` | backend/app/agent.py:72-86 | Every object inside a well-formed value still has unique keys after scrubbing |
| `Json.ScrubNumbersIn` | backend/app/agent.py:72-85 | The scrubber only copies scalars, so every number of the result is a number of the input |
| `Json.NestedListKeepsSql` | backend/app/agent.py:78-82 | An object inside a list of lists keeps its `"sql"` member, because the comprehension does not recurse into nested lists |
| `Text.TrimStartSpec` | backend/app/agent.py:122 | `lstrip` keeps the longest suffix that does not start with whitespace and drops only whitespace |
| `Text.TrimEndSpec` | backend/app/agent.py:122 | `rstrip` keeps the longest prefix that does not end with whitespace and drops only whitespace |
| `Text.StripSpec` | backend/app/agent.py:125 | `strip()` returns a contiguous piece of its argument that has whitespace on neither end, and cuts off only whitespace |
| `Text.StripEmptyIffBlank` | backend/app/agent.py:122 | `line.strip()` is empty exactly when every character of the line is whitespace |
| `Text.StripFixedIffTrimmed` | backend/app/agent.py:125-128 | `strip()` returns its argument unchanged if and only if the argument has no whitespace on either end |
| `Text.StripIdempotent` | backend/app/agent.py:125-128 | `strip()` is idempotent |
| `Text.StripAfterBlank` | backend/app/agent.py:125-128 | Stripping a blank followed by a stripped string gives that string back |
| `Relay.ErrorDetail` | backend/app/agent.py:113-118 | The error detail is `"Cortex API error: "` followed by the body, and the body can be read back from it |
| `Relay.Frame` | backend/app/agent.py:126-141 | Each sent string is a text plus a final newline, and removing the newline gives the text back |
| `Relay.StreamAgentResponse` | backend/app/agent.py:113-141 | A non-200 status gives an error with that status and the API's body and sends no line; for a 200 answer the loop, which rewrites each line in place (blank, `event:`, `data:` with or without a parsable payload, other), gives `RelayLines` of its lines |
| `Relay.RelayLinesCount` | backend/app/agent.py:121-141 | A 200 answer sends at most one string per input line, and one for every line exactly when the relay completes |
| `Relay.RelayLinesStopsAt` | backend/app/agent.py:127-136 | An interrupted relay stops at the first line it did not send, and the filter raises on that line |
| `Relay.RelayLinesContent` | backend/app/agent.py:121-141 | Each string sent is the framed rewrite of the input line at the same position, so the output keeps the input order |
| `Relay.RelayLinesAppend` | backend/app/agent.py:121-141 | Relaying the lines in two pieces gives the same result as relaying them all at once |
| `Relay.RewriteLineFails` | backend/app/agent.py:127-136 | A line fails if and only if the setting is on and it is a `data:` line whose payload parses to a non-object; other lines are echoed |
| `Relay.RelayLinesCompleteWhenOff` | backend/app/agent.py:121-141 | With the setting off, every line of a 200 answer is relayed |
| `Relay.RewriteLineKeepsKind` | backend/app/agent.py:122-141 | A rewritten line has the same kind (blank, `event:`, `data:`, other) as the line it came from |
| `Relay.EventLineIsFixed` | backend/app/agent.py:124-126 | An `event:` line as the relay writes it is relayed unchanged |
| `Relay.DataLinePayload` | backend/app/agent.py:127-128 | A `data:` line as the relay writes it is read back as a `data:` line with the same payload |
| `Relay.LibraryRoundTripsFiltered` | backend/app/agent.py:131-133 | If `json.loads` returns dicts without a key twice and only representable numbers, and `json.dumps` of any such value is read back as itself with no surrounding whitespace, then every payload the relay serialises is read back as itself |
| `Relay.RewriteLineIdempotent` | backend/app/agent.py:122-141 | If every payload the relay serialises is read back as itself with no surrounding whitespace, relaying a relayed line gives it back |
| `Relay.RelayLinesIdempotent` | backend/app/agent.py:121-141 | Under the same condition, a second relay with the same setting, fed the strings this one sent, sends them unchanged |

## Left out

- `json.loads` and `json.dumps` are not modelled; they are the `Codec` parameter. The idempotence lemmas assume a round trip only for the payloads the relay serialises (`Relay.RoundTripsFiltered`). `Relay.LibraryRoundTripsFiltered` derives that from properties the `json` module has: `loads` never returns a key twice, and it returns only numbers a Python int or float can hold.
- The HTTP layer is left out: the `httpx` client, the POST to the agent endpoint, `aiter_lines` line splitting, `aread` and byte decoding of the error body. The model starts from the status, the decoded body and the list of lines.
- The `httpx.RequestError` fallback (`agent.py:143-148`) is left out. It is transport error handling.
- `prepare_agent_request` (`agent.py:27-40`) returns its argument unchanged and only shapes the outgoing request. `run_agent` (`agent.py:151-177`) is FastAPI routing and response headers. Neither is modelled.
- Logging is left out.
- What FastAPI does with an exception raised inside a streaming response is not modelled. The model stops with `Interrupted` and the strings already sent.
- Python's distinction between JSON integers and floats is left out: numbers are `real`. The scrubber only copies scalars.
- `auth.py`, `snowflake_client.py`, `config.py` and `main.py` are not part of this model. They are cookie signing, HTTP calls, environment loading and application wiring. The one setting used, `REMOVE_SQL_FROM_RESPONSE`, is a parameter.
- Objects are sequences of members, so the model admits a key twice where a Python dict cannot. `Json.WellFormed` says no key appears twice. The scrubber keeps it (`Json.ScrubWellFormed`). Only `Relay.LibraryRoundTripsFiltered` relies on it; the other contracts hold for any sequence of members.
