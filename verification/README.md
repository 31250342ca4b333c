# dualagent: the two-agent chat loop, modelled in Dafny

The program is a terminal chatbot that answers each question in two stages: a
"generator" service (Gemini) writes a first answer, and an "evaluator" service
(a chat-completion endpoint) is asked to improve it. The conversation is kept
in an in-memory log, `ChatMemory`, which the user can clear with a command.

This project models the deterministic core of `app.py`:

- `json.dfy` (module `JsonPath`): decoded JSON bodies and Python's subscript
  operator on them, with the exact exception each failing subscript raises
  (`KeyError`, `IndexError`, `TypeError`), and chained subscripts as `Walk`.
- `memory.dfy` (module `Memory`): `ChatMemory` as an immutable value with
  `New`, `AddMessage`, `GetHistory` and `ClearHistory`.
- `clients.dfy` (module `Clients`): what `call_generator_api` and
  `call_evaluator_api` do with the HTTP response, which is an input here as
  `(status, raw text, decoded body)`. The generator catches only `KeyError`
  and `IndexError` and turns them into a fixed sentinel string. The evaluator
  catches nothing. Both raise on any status other than 200.
- `chat.dfy` (module `Chat`): one iteration of the `chatbot` loop as the pure
  function `Step` over (memory, input line, the two responses). It returns
  the new memory, whether the loop continues, stops, or is aborted by an
  escaping exception, and the client calls made with their prompts. `Run` is
  the whole loop over a finite input as a reference definition, and the
  method `Chatbot` is the imperative loop proved equal to it.

The code has no fallback around either client call. A generator or
evaluator exception escapes `chatbot` after the user entry was appended and
before any assistant entry. `TurnGeneratorRaises` and `TurnEvaluatorRaises`
state this.

## Model

| member | source | states |
|---|---|---|
| JsonPath.Subscript | app.py:41 | Python's `node[key]` on decoded JSON: TypeError exactly when the node is not a dict, list or string, or a list or string is indexed by a name; a dict answers exactly its keys and raises KeyError otherwise, including for an integer; a list or string answers exactly the indices in `-len..len-1` and raises IndexError otherwise; a string yields a one-character string |
| JsonPath.WalkAppend | app.py:41 | `Walk`, the chained subscript `body[k1][k2]...` evaluated left to right, splits at any point: a chain of subscripts splits at any point: evaluating `p + q` is evaluating `p`, then `q` from its result, and an exception in `p` is the exception of the whole chain |
| JsonPath.WalkRaisedIsFinal | app.py:41 | once a subscript in the chain raises, nothing appended after it changes the exception |
| Memory.ChatMemory.New | app.py:8-9 | a new memory holds no entries |
| Memory.ChatMemory.AddMessage | app.py:11-12 | adding grows the log by exactly one, the new last entry is `{role, content}`, and every earlier entry is unchanged |
| Memory.ChatMemory.ClearHistory | app.py:17-18 | after a clear the log is empty |
| Memory.AddAllIsConcatenation | app.py:11-15 | after any run of additions, the history read back is the old history followed by exactly the added messages, in order |
| Memory.ClearIsIdempotent | app.py:17-18 | clearing twice equals clearing once, and the result does not depend on what the memory held |
| Memory.ClearThenAdd | app.py:11-18 | after a clear, the history is exactly what was added since |
| Clients.ExtractGeneratorText | app.py:40-43 | the guarded read yields exactly the value at `candidates[0].content.parts[0].text` when every subscript succeeds, the sentinel exactly when one raises KeyError or IndexError, and lets only TypeError escape |
| Clients.CallGenerator | app.py:36-45 | a status other than 200 raises an error carrying the "Error Gemini" prefix, the status and the body text, and only such a status does; the sentinel string is returned exactly when the read degraded or the real text equals it; a found value is returned unchanged, and a TypeError from the read escapes |
| Clients.CallEvaluator | app.py:59-62 | a status other than 200 raises an error carrying the status and the body text, and only such a status does; on 200 the value at `choices[0].message.content` is returned, and a failing subscript escapes as its own exception |
| Clients.GeneratorReturnsShapedText | app.py:36-43 | on status 200 the generator returns `t` whenever the body holds `t` at `candidates[0].content.parts[0].text` (dicts at name steps, lists at index steps), and any value it returns other than the sentinel string sits at that path |
| Clients.GeneratorTextExactlyWhenShaped | app.py:36-41 | the generator's read yields `t` if and only if the body is a dict with `candidates`, a non-empty list whose first element is a dict with `content`, a dict with `parts`, a non-empty list whose first element is a dict whose `text` is `t` |
| Clients.EvaluatorTextExactlyWhenShaped | app.py:59-60 | the evaluator's read yields `t` if and only if the body is a dict with `choices`, a non-empty list whose first element is a dict with `message`, a dict whose `content` is `t` |
| Clients.EvaluatorHasNoSentinel | app.py:59-60 | on status 200 the evaluator returns a value if and only if the documented path is present, and then it returns that value; otherwise it raises |
| Clients.MissingCandidatesGivesSentinel | app.py:40-43 | a 200 body without `candidates` makes the generator return the sentinel string instead of raising |
| Clients.NoCandidatesGivesSentinel | app.py:40-43 | a 200 body whose `candidates` is an empty list makes the generator return the sentinel string |
| Clients.CaughtWrongTypesGiveSentinel | app.py:40-43 | a `candidates` that is a dict, or the empty string, still degrades to the sentinel, because `[0]` on it raises KeyError or IndexError |
| Clients.WrongTypeEscapesGenerator | app.py:40-42 | a body that is a list, or a `candidates` that is a non-empty string, makes the generator raise TypeError, which is not caught |
| Clients.SentinelIsAmbiguous | app.py:41-43 | a malformed body and a well-formed body whose text is the sentinel string produce the same result, so a caller cannot tell them apart |
| Chat.Lower | app.py:72 | lowercasing keeps the length and maps each character on its own, changing only ASCII capitals |
| Chat.LowerIsIdempotent | app.py:72 | lowercasing twice equals lowercasing once, and a word with no capitals is its own lowercase |
| Chat.LowerMatchesExactlyUpToCase | app.py:72-75 | a line lowercases to a lowercase word if and only if it spells that word in some mix of case |
| Chat.ClassifyIgnoresCase | app.py:72-75 | `Classify`, the membership tests of the lowercased line in the two command lists: a line is an exit command if and only if it spells "salir" or "exit" in any case, and a clear command if and only if it spells "limpiar", "clear" or "reset"; nothing else, with no trimming |
| Chat.Step | app.py:71-95 | exit stops the loop with memory unchanged and no call, and only exit stops it; clear empties memory, continues, and calls nothing; any other line is appended as a user entry first and goes first to the generator with the generator template; an abort leaves exactly the user entry appended; a completed turn appends exactly two entries, the second an assistant entry, after two calls |
| Chat.TurnSucceeds | app.py:80-95 | when both calls return, the history grows by `("user", line)` then `("assistant", evaluator value)`, and the calls are the generator with "Genera una respuesta detallada para: " + line, then the evaluator with "Evalúa esta respuesta y implementa mejoras/optimizaciones: " + the generator's value |
| Chat.TurnGeneratorRaises | app.py:80-85 | when the generator raises, only the user entry is appended, the evaluator is never called, and the loop aborts with that exception |
| Chat.TurnEvaluatorRaises | app.py:80-89 | when the evaluator raises, only the user entry is appended, there is no fallback to the generator's answer, and the loop aborts with that exception |
| Chat.BadStatusAborts | app.py:85-89 | a non-200 status from the generator, or from the evaluator after the generator returned, aborts the turn with an error carrying that status and body, and no assistant entry is appended |
| Chat.SentinelFlowsIntoEvaluator | app.py:84-89 | a 200 generator body without `candidates` does not stop the turn: the sentinel string is interpolated into the evaluator prompt |
| Chat.StepKeepsAlternation | app.py:71-95 | from a history of user/assistant pairs, a step leaves a history of pairs, or pairs plus one trailing user entry when it aborts |
| Chat.Run | app.py:70-95 | the loop reads at most the lines given, reads all of them when nothing stops it, and when it leaves early it leaves at an exit line or at a non-command line whose turn raised |
| Chat.RunKeepsAlternation | app.py:70-95 | from an alternating history, the whole loop ends alternating, or alternating plus one unanswered user entry when it aborted |
| Chat.RunReadsUntilExitOrFailure | app.py:70-95 | no line the loop read and went past was an exit command, and for each such question both client calls returned |
| Chat.Chatbot | app.py:64-95 | the imperative loop from an empty memory ends in exactly the session `Run` describes, with a history of user/assistant pairs, plus one trailing user entry if it aborted |
| Chat.HolaScenario | app.py:80-95 | "hola" with both calls returning leaves `[("user","hola"), ("assistant", improved answer)]`, and the evaluator was asked about the generator's answer |
| Chat.ResetScenario | app.py:75-78 | "RESET" on a four-entry memory leaves it empty, calls no client and continues |
| Chat.SalirScenario | app.py:72-74 | "Salir" stops the loop, records nothing and calls no client |

`Memory.ChatMemory.GetHistory` (app.py:14-15) returns the log itself. Its
behaviour is stated through `Memory.AddAllIsConcatenation` and
`Memory.ChatMemory.ClearHistory`.

## Left out

- The HTTP requests, meaning the URLs, headers, credential parameters, request bodies and model identifiers (app.py:22-34, app.py:48-58), are not modelled. A call is represented only by its response.
- Network failures raised by the request itself (timeouts, refused connections) are not modelled. Each would escape like a status error and abort the loop.
- Decoding the body as JSON is not modelled. The body is given already decoded. A body that does not decode would raise in the source and abort the loop.
- JSON floating-point numbers cannot be represented: `Json` has integer numbers only. Subscripting behaves the same on any number, but a float found at the generator's text path or the evaluator's content path would be stored in the history and interpolated into the evaluator prompt, and such bodies are outside the model.
- Memory.ChatMemory.GetHistory: returns the log as a value. In the source it returns the live list: `add_message` appends to that list in place, so a list fetched earlier sees later additions, while `clear_history` binds a new list, so a list fetched before a clear keeps the old entries. This aliasing is not modelled; the loop never calls `get_history`.
- Console output, Markdown rendering and reading input with `Prompt.ask` are not modelled. The end of input, or an interrupt while reading, would end the source's loop with an exception. In the model, input that runs out leaves the loop waiting, with status `Continue`.
- The `__main__` block (app.py:100-115) is left out. Its credential keys are hard-coded empty, so it always exits before the loop starts.
- Chat.Lower: covers ASCII letters only, not Python's Unicode `str.lower()`. In Python, a line holding a non-ASCII character never lowercases to one of the command words (the only such character whose lowercase is ASCII is the Kelvin sign, giving "k"), so commands are classified the same way.
- Chat.Prompt.Text: renders a prompt only when the interpolated value is a string. Python's `str()` of a list, dict, number or `None` that a malformed body could put at the text path is not modelled. The call record still carries that value unrendered.
- Clients.CallGenerator: the exception's message is recorded as its parts (prefix, status, body text) and not as the formatted string `"<prefix>: <status>, <text>"`.
- Clients.CallEvaluator: the exception's message is recorded as its parts in the same way.
