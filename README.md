# SELF-DISCOVER Reasoning Assistant — a Dafny model of its text handling

The application is a single Streamlit page (`app.py`). The user types a task
and presses "Run SELF-DISCOVER". The page then does four things:

- it refuses an empty task;
- it places the task into a fixed SELF-DISCOVER prompt template;
- it sends that prompt to the OpenAI chat service and trims the reply;
- it removes a leading ```` ```json ```` marker and a trailing ```` ``` ```` marker
  from the reply, trims it again and hands it to `json.loads`. If the
  parser refuses the text, the page shows the trimmed reply as received,
  under a warning.

The model covers that text handling. It has four modules:

- `PyStr` (`pystr.dfy`) models the Python string operations the page calls:
  `startswith`, `endswith`, `replace(old, new, 1)`, slicing with a negative
  stop, and `strip`. Two further definitions stand for what those calls do
  inside. `IsSpace` is the whitespace set that `strip()` removes; it is the
  set for which Python's `str.isspace()` is true. `Find` is the search for
  the first occurrence that `replace` performs; it behaves as `str.find`.
- `Prompt` (`prompt.dfy`) holds the task guard and the template. The
  template's text is reproduced exactly, with the f-string's doubled braces
  written as single ones.
- `Cleanup` (`cleanup.dfy`) models the reply clean-up twice. `Cleaned` is a
  function. `CleanResponse` is a method that reassigns one variable step by
  step, as the page does, and is proved equal to `Cleaned`.
- `App` (`app.dfy`) models the button handler. The chat service is a
  parameter `service: string -> Reply` and `json.loads` is a parameter
  `loads: string -> Option<V>`. The handler returns the list of prompts it
  sent, so "no request is made" is part of its result.

## Model

| member | source | states |
|---|---|---|
| PyStr.IsSpaceIsPythonWhitespace | app.py:22 | the whitespace `strip()` removes (lines 22 and 81) is exactly the 29 code points of Python's `str.isspace()`; no character of a code-block marker is whitespace |
| PyStr.StartsWith | app.py:75 | `s.startswith(p)` holds exactly when `p` is no longer than `s` and agrees with `s` character by character from the front |
| PyStr.EndsWith | app.py:77 | `s.endswith(p)` holds exactly when `p` is no longer than `s` and agrees with the last `|p|` characters of `s` |
| PyStr.Find | app.py:76 | the search inside `replace`, behaving as `str.find`: -1 exactly when the pattern occurs nowhere; otherwise an occurrence with none before it |
| PyStr.ReplaceFirst | app.py:76 | `replace(p, r, 1)` leaves the string unchanged when `p` does not occur; otherwise the text before the first occurrence is kept, the occurrence becomes `r` and the text after it is kept |
| PyStr.ReplaceFirstAtStart | app.py:75-76 | behind a `startswith` guard, `replace(p, "", 1)` removes exactly the leading `p`; later occurrences stay |
| PyStr.SliceTo | app.py:78 | `s[:stop]` is a prefix of `s`; a negative stop counts from the end and the bound is clamped |
| PyStr.SliceDropsLast | app.py:77-78 | on a string at least `k` long, `s[:-k]` drops exactly its last `k` characters |
| PyStr.Strip | app.py:81 | `strip()` leaves no whitespace at either end and never lengthens the text |
| PyStr.StripIsSlice | app.py:81 | `strip()` returns `s[i..j]`, where everything before `i` and from `j` on is whitespace |
| PyStr.StripKeepsNonSpace | app.py:81 | every non-whitespace character of the input is still in the stripped text |
| PyStr.StripStrippedIsIdentity | app.py:22 | a text with no whitespace at either end is left unchanged by `strip()` |
| PyStr.StripPadding | app.py:22 | whitespace around a non-empty stripped text is exactly what `strip()` removes |
| PyStr.StripIdempotent | app.py:81 | stripping twice gives the same text as stripping once |
| Prompt.TaskGiven | app.py:31 | `not task` refuses exactly the empty string, so a task made only of whitespace is accepted |
| Prompt.TemplateText | app.py:35-66 | the template's fixed text, `PromptPrefix` and `PromptSuffix`, is 1282 characters before the task and 227 after it; it opens and closes with a line break |
| Prompt.BuildPrompt | app.py:35-66 | the prompt's length is the prefix's length plus the task's length plus the suffix's length |
| Prompt.TemplateFraming | app.py:55-57 | the prefix ends with `## Task:` and a line break; the suffix starts with a line break, then `## Output Format:` |
| Prompt.TaskRoundTrip | app.py:55-57 | the task sits verbatim between prefix and suffix and can be read back out of the prompt |
| Prompt.BuildPromptInjective | app.py:35-66 | different tasks give different prompts |
| Prompt.PromptShape | app.py:35-66 | a string is the prompt for a task exactly when it is prefix, then that task, then suffix |
| Cleanup.Unfenced | app.py:74-78 | taking off the markers never lengthens the reply |
| Cleanup.UnfencedIsSlice | app.py:74-78 | taking off the markers leaves one contiguous piece of the reply |
| Cleanup.Cleaned | app.py:73-81 | the text given to the parser has no whitespace at either end and is no longer than the reply |
| Cleanup.CleanResponse | app.py:73-81 | the step-by-step clean-up (guarded `replace`, guarded `[:-3]`, `strip()`) computes `Cleaned` |
| Cleanup.CleanedIsSlice | app.py:73-81 | the cleaned text is one contiguous piece of the reply |
| Cleanup.CleanedWithoutFences | app.py:22-81 | a reply with neither marker is only trimmed; since it was trimmed already at line 22, it is unchanged |
| Cleanup.FencedRoundTrip | app.py:75-81 | a body wrapped in ```` ```json ```` and ```` ``` ```` comes back as the trimmed body, whatever markers the body holds |
| Cleanup.OpeningFenceRemovedOnce | app.py:75-76 | only one leading ```` ```json ```` is removed; a second one behind it stays |
| Cleanup.ClosingFenceRemovedOnce | app.py:77-78 | a trailing ```` ``` ```` is removed without an opening marker too, and only once |
| Cleanup.OpeningFenceAloneCleansToEmpty | app.py:75-78 | the closing check runs after the opening marker is gone, so a lone ```` ```json ```` cleans to the empty text |
| Cleanup.FencedReplyShrinks | app.py:75-78 | a reply carrying either marker loses at least three characters |
| Cleanup.CleanedNotIdempotent | app.py:73-81 | a second clean-up pass can change the text: ```` ```json```json b``` ```` cleans to ```` ```json b ```` and then to `b` |
| Cleanup.CleanedFixedPoint | app.py:73-81 | a cleaned text with no marker at either end is unchanged by a second pass |
| App.CallOpenAI | app.py:13-22 | a successful reply is passed on as the service's text with `strip()` applied; a failure is passed on as it is |
| App.ParseOrFallback | app.py:83-88 | the parsed value of the cleaned text is shown when the parser accepts it; otherwise the raw reply, not the cleaned text, is shown under the warning |
| App.RunSelfDiscover | app.py:30-90 | no prompt is sent exactly when the task is empty, and then the missing-task error is shown; any other task sends exactly its prompt, once; a reply is then shown through the parse-or-fallback choice on the trimmed reply, and a failed request shows the API error text followed by the failure message |
| App.WhitespaceTaskIsSent | app.py:31 | a task made only of whitespace is not refused; its prompt is sent |
| App.FallbackShowsRawReply | app.py:86-88 | when the parser refuses a reply that carried a marker, the text shown differs from the cleaned text |
| App.FencedReplyIsParsed | app.py:22-85 | a reply that is a ```` ```json ```` block, with optional surrounding whitespace, is parsed from the block's trimmed body |
| App.RefusedReplyIsShownRaw | app.py:70-88 | when the parser refuses the cleaned reply, the page shows the trimmed reply under the warning |

## Left out

- The OpenAI client and its request (app.py:7, app.py:13-21) are not modelled. This covers the model name, the empty system message, the temperature and the token budget. The service is the parameter `service`, and its answer is either reply text or the text of the exception it raised.
- `sent` in `App.Outcome` counts the calls to the chat service as the page makes them, one per button press with a task. The OpenAI client may retry a failed HTTP request on its own, and such retries inside the client are not modelled.
- A reply whose `content` is `None` is not modelled. In the source, `.strip()` then raises and the outer `except` shows the error. In the model, a reply always carries a string.
- The missing API key check (app.py:10-12) is not modelled. It reports through `st.error` and halts the script through `st.stop()`, which is framework control flow.
- All Streamlit rendering is reduced to the `Screen` value: page setup, title, text area, button, spinner, `st.json`, `st.code`, `st.warning` and `st.error`.
- `json.loads` is the parameter `loads`, not a JSON grammar. `None` stands for `JSONDecodeError`. Any other exception raised by the parser or by `st.json` would reach the outer handler at app.py:89-90, and the model does not represent it.
- Python strings may hold lone surrogate code points, but a Dafny `string` holds only Unicode scalar values. `IsSpace` lists the code points for which Python's `str.isspace()` is true. The proofs rely only on the backtick and the marker letters not being whitespace.
- A brace-extraction fallback, a numeric-array fallback with default values, result caching and multi-step session state are not part of app.py, so they are not modelled.
- The clean-up is not idempotent (Cleanup.CleanedNotIdempotent), so no general idempotence property is stated. Only the fixed point of Cleanup.CleanedFixedPoint is.
