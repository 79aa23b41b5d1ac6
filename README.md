# CADIIA relay and responder — a verified Dafny model

CADIIA is a WhatsApp bridge built from two scripts. `relay.js` polls the
Z-API gateway every ten seconds; for each usable message of the fetched batch
it overwrites `entrada.json` with `{numero, mensagem}` and commits the same
record to GitHub with a PUT, which starts a workflow. The workflow runs
`processar.py`, which reads `entrada.json`, ignores the message unless it
contains the keyword "zumo" (in any case) and does not come from a group,
asks the language model for an answer and sends that answer, or an error
text, back to `numero` through Z-API.

This project models the decision logic of both scripts and proves what they
promise.

- `text.dfy` (module `Text`): the whitespace sets of Python's `str.strip()`
  and JavaScript's `trim()`, trimming, ASCII lower-casing and substring search.
  Trimming and substring search each have a reference definition (`TrimmedAt`
  and `Occurs`) that the computed version is proved to meet. The whitespace
  sets and `Lower` are definitions only, with no reference to check them
  against.
- `admission.dfy` (module `Admission`, `processar.py`): field defaults, the
  keyword gate, then the group gate, the reply text, the send request and how
  its outcome is reported. All of it is pure functions and lemmas.
- `relay.dfy` (module `Relay`, `relay.js`): the class `Relay.Relay` holds the
  one-slot file `file` and the log `puts` of completed PUTs. Its method
  `VerifyMessages` is the loop of `verificarMensagens`. The method is proved
  against the specification function `Poll`. Lemmas then relate `Poll` to an
  independent filter-map definition, `Forwardable`.
- `pipeline.dfy` (module `Pipeline`): the hand-off from the relay's record to
  the responder's input.
- `wrappers.dfy` (module `Wrappers`): `Option` and `Result`.

The model follows what the two scripts do. Neither script has a seen-set or deduplication,
retries or backoff, a privileged "master" override, matching on `author`, or
a self-echo rule inside the responder. The `fromMe` filter is in the relay
only. The responder counts only HTTP 200 as a successful send, not 201. The
destination number is sent unchanged, with no normalisation. None of these
absent mechanisms is modelled.

I/O is made into parameters:
- The language model's outcome is a `Result<string, string>`: the answer, or
  the error text.
- The Z-API send outcome is a `Result<int, string>`: the HTTP status, or an
  exception.
- The gateway fetch is a `Fetched` value: a thrown error, a value that is not
  an array, or a batch.
- The errors thrown by `writeFileSync` or by the awaited PUT are a map from
  batch index to `Fault`.

## Model

| member | source | states |
|---|---|---|
| Text.IsPythonBlank | processar.py:44 | the characters `str.strip()` removes, i.e. those for which `str.isspace()` holds: U+0009..U+000D, U+001C..U+0020, U+0085, U+00A0, U+1680, U+2000..U+200A, U+2028, U+2029, U+202F, U+205F and U+3000 |
| Text.IsJsBlank | relay.js:33 | the characters `String.prototype.trim()` removes, i.e. WhiteSpace and LineTerminator in ECMA-262: U+0009..U+000D, U+0020, U+00A0, U+1680, U+2000..U+200A, U+2028, U+2029, U+202F, U+205F, U+3000 and U+FEFF |
| Text.Trim | relay.js:33 | `strip()`/`trim()` for a given blank set: the slice of `s` after its leading blanks and before its trailing blanks (`Text.TrimFacts` states what it keeps) |
| Text.Lower | processar.py:50-54 | `str.lower()` restricted to ASCII: 'A'..'Z' map to 'a'..'z', and every other character is unchanged (the wider Unicode mapping is covered under Left out) |
| Text.TrimFacts | processar.py:44 | `strip()`/`trim()` keep exactly the part between the leading and trailing blanks; the result is empty iff the whole string is blank |
| Text.TrimmedUnique | relay.js:33 | any two trimmings of one string are equal, so the trimmed text is uniquely determined |
| Text.TrimLowerCommute | processar.py:50 | lower-casing and stripping commute: `s.strip().lower() == s.lower().strip()` |
| Text.Contains | processar.py:50 | Python's `sub in s` holds iff `sub` occurs at some index of `s` |
| Text.OccursInTrim | processar.py:44-50 | a keyword found in the lower-cased stripped message also occurs in the lower-cased raw message |
| Admission.Strip | processar.py:44 | `str.strip()` is trimming with Python's whitespace set |
| Admission.Numero | processar.py:43 | `dados.get("numero", "")`: the stored number, or "" when the key is missing |
| Admission.Mensagem | processar.py:44 | `dados.get("mensagem", "").strip()`: the stored message, or "" when the key is missing, then stripped |
| Admission.Mentions | processar.py:50-54 | `word in text.lower()`: `word` occurs at some index of the lower-cased text. This is the reference form in which the two gates are stated |
| Admission.Decide | processar.py:43-56 | a reply is decided iff the stripped message is non-empty, contains "zumo" case-insensitively, and the lower-cased `numero` does not contain "group"; a missing or keyword-less message is refused as NoKeyword whatever `numero` is, so the keyword gate comes first; GroupChat only when `numero` contains "group" |
| Admission.ReplyText | processar.py:70-78 | on success the reply is the model's answer with surrounding whitespace removed; on failure it is the fixed prefix "⚠️ Erro de IA: " followed by the error text |
| Admission.Report | processar.py:86-93 | a send is reported delivered iff the status is exactly 200; an exception is reported as a failure, any other status as a rejection |
| Admission.Run | processar.py:43-93 | a run sends exactly one request when the record is admitted and none otherwise; the request goes to `numero` unchanged and carries the reply text; the send outcome is reported once and never leads to a second request |
| Admission.BlankNeverAnswered | processar.py:43-52 | a record whose `mensagem` is missing, empty or only whitespace is refused as NoKeyword |
| Admission.NoKeywordNeverAnswered | processar.py:50-52 | if "zumo" does not occur in the lower-cased raw message, the record is refused as NoKeyword whatever `numero` is |
| Admission.DecisionIgnoresCase | processar.py:50-56 | two records whose fields agree once lower-cased get the same decision |
| Admission.MissingNumeroIsPrivate | processar.py:43-56 | a record without `numero` is never refused as a group chat |
| Relay.Truthy | relay.js:29-30 | JavaScript truthiness: undefined, null, false, 0 and "" are falsy, and every other value, objects included, is truthy |
| Relay.Eligible | relay.js:29-30 | the loop's filter: the element is an object whose `phone` and `message` are truthy and whose `fromMe` is falsy |
| Relay.RecordOf | relay.js:32-33 | the record built for an eligible entry with a string message: `numero` is the phone unchanged, `mensagem` is the message after `trim()` |
| Relay.Step | relay.js:28-62 | one iteration: a filtered entry changes nothing; a message that is not a string throws at `.trim()` before any write; a throwing write aborts with the file unchanged; a throwing PUT aborts after the file was written; otherwise the file is overwritten and the PUT logged |
| Relay.RunFrom | relay.js:28-63 | the loop from one index on: entries are handled in array order and the first thrown error skips the rest of the batch |
| Relay.Poll | relay.js:20-66 | one call of `verificarMensagens`: a thrown fetch reaches the catch, a falsy or non-array value returns with nothing done, and an array runs the loop from its first element |
| Relay.Forwardable | relay.js:28-63 | reference definition of the records a batch forwards when no I/O error occurs: the eligible entries' records in array order, up to the first eligible entry whose message is not a string |
| Relay.Breaks | relay.js:29-33 | some eligible entry's message is not a string, so `.trim()` throws and the batch ends |
| Relay.Relay.VerifyMessages | relay.js:20-66 | one poll leaves `file`, `puts` and the thrown flag exactly as the specification `Poll` gives them from the old state: nothing changes for a thrown fetch or a non-array value; the loop stops at the first thrown error |
| Relay.RunWithoutFaults | relay.js:26-63 | without I/O errors a batch PUTs exactly the forwardable records in array order, leaves the last of them in `entrada.json` (the old content if there is none), and aborts iff some eligible message is not a string |
| Relay.RunKeepsPuts | relay.js:45-60 | the loop only appends to the PUT log |
| Relay.FaultsOnlyTruncate | relay.js:21-66 | with thrown I/O errors the PUTs made are a prefix of those of the error-free run, and a batch that does not abort is the error-free run |
| Relay.FileAfterRun | relay.js:36-45 | `entrada.json` ends up holding the record of the last PUT (the old content if the run made none) or, after an abort, the next record of the error-free run, whose PUT threw |
| Relay.ReplayForwardsTwice | relay.js:20-71 | the relay keeps no memory across polls: the same batch fetched twice forwards every record twice, and a batch cut short by a non-string message is cut short again on the second poll |
| Relay.SkippedContributeNothing | relay.js:29-30 | an entry that is null, lacks a truthy `phone` or `message`, or has `fromMe` adds no record and causes no abort, wherever it stands in the batch |
| Relay.EligibleForwardedInPlace | relay.js:28-60 | an eligible entry with a string message contributes exactly one record `{numero: phone, mensagem: trim(message)}`, in its place in array order |
| Pipeline.Handoff | relay.js:36-40 | the `{numero, mensagem}` record the relay writes is what `processar.py` reads as `entrada.json`, both fields present |
| Pipeline.BlankMessageRelayedThenIgnored | relay.js:29-33 | a whitespace-only message passes the relay filter, is trimmed to "", and the responder then refuses it as NoKeyword |

## Left out

- The heartbeat thread (processar.py:25-31): it is a liveness log, concurrent with the run.
- Reading `entrada.json` and the `exit()` calls (processar.py:36-41, 52, 56): the parsed record is the input `Stored`, and an exit is a `Decision` other than `Respond`.
- The prompt (processar.py:61-68) and the OpenAI call (processar.py:70-76): the call's outcome is an input.
- The HTTP calls are outcomes given as inputs, not made: the Z-API send (processar.py:85-93), the Z-API fetch (relay.js:22-24) and the GitHub PUT (relay.js:45-60). The PUT's base64 body, commit message and timestamp are reduced to the `{numero, mensagem}` record.
- The GitHub workflow dispatch `reiniciar_workflow` (processar.py:98-120): it restarts the cycle and does not take part in the decision.
- Logging and `setInterval` scheduling (relay.js:70-71): overlapping polls, where a slow poll is still running when the next one starts, are not modelled.
- The environment-variable guard (relay.js:13-16): it is configuration plumbing.
- Text.Lower: lower-cases only ASCII letters, where Python's `str.lower()` covers all of Unicode. No non-ASCII character lower-cases to a letter of "zumo" or "group", so the two decisions agree; this argument is not proved in Dafny.
- Admission.Stored: holds only string fields. A non-string JSON value in `entrada.json` would make `.strip()` or `.lower()` raise; that crash is not modelled. The same goes for a numeric phone written by the relay (see `Pipeline.Handoff`).
- Relay.JsValue: models JavaScript numbers as integers, so NaN and fractions are not modelled.
- Relay.JsValue: treats every object as a value whose string conversion succeeds. A `phone` that is an object whose `toString` and `valueOf` cannot produce a primitive (for example `{"toString": 1}`) makes the template literal at relay.js:42 throw after relay.js:36-40 has written `entrada.json` and before the PUT. The batch then ends in the catch. The model does not derive this from the entry. Its effect on `file`, `puts` and the thrown flag equals that of a `PutThrows` fault at the same index, which the fault map can express.
- Relay.Step: a `writeFileSync` that throws leaves the file unchanged in the model. A partially written file is not modelled.
- Relay.Relay.VerifyMessages: `puts` logs a PUT only when its await returns. A PUT whose await throws is not logged, even if the request reached GitHub. An HTTP error status from GitHub does not throw, so such a PUT is logged as made.
