# Solidity-to-Clarity converter: sanitizer, request guard and converter state

This project models the decision logic of a small web tool. The tool sends a
Solidity contract to a language model and shows the Clarity code that comes
back. It has three parts.

- **The response sanitizer** runs inside the Flask `convert_code` handler
  (`backend/app.py`). It takes the model's reply and works in three steps:
  - it strips whitespace from the reply;
  - it walks six introductory phrases in a fixed order, and for each one
    found in exact case it keeps only the trimmed text after its first
    occurrence;
  - when a markdown fence "```" occurs, it keeps only the lines between fence
    lines, using an `inside_code_block` flag that fence lines toggle.

  Module `Sanitizer` states each step as a function and proves properties of
  it. The methods `StripIntroPhrases` and `FilterFenceLines` run the two
  loops the handler runs:
  - the invariant of `StripIntroPhrases` ties the text to `StripIntros` over
    the phrases seen so far;
  - the invariant of `FilterFenceLines` ties its `inside_code_block` flag to
    the parity of the fence lines seen so far, and the lines collected so far
    to `KeptLines` of those lines.

  `SanitizeUsing` runs the strip and the two loops in order for any phrase
  list. `Sanitize` calls it with the handler's six phrases.
- **The request guard** in the same handler (`backend/app.py:40-49`) checks
  the configured API key before it looks at the body. It then requires a
  truthy `solidityCode` field. Module `ConvertGuard` models it over a JSON
  value, with Python truthiness.
- **The converter page** (`frontend/src/components/CodeConverter.js`) is
  modelled without its rendering. Class `CodeConverter.ConverterState` holds
  the component's state variables. Its methods and the functions beside it cover:
  - the submit guard;
  - the newest-first history capped at ten versions;
  - restoring a version by index;
  - the deploy guard;
  - the ordered choice of the error message.

  Each async handler is split at its `await` into a Begin and a Finish
  method. The request's outcome and `Date.now()` are parameters of Finish.

Module `Text` gives the Python string built-ins the sanitizer calls:
`strip`, `lower`, `startswith`, `in`, `split(sep, 1)`, `split("\n")` and
`"\n".join`. `StartsWith`, `Contains` and `Join` are plain definitions.
`Join` is tied to `split` by the round-trip lemmas `JoinSplit` and
`SplitJoin`. Every other operation carries its own contract.

The test for an introductory phrase at app.py:119 is case-insensitive, but
the split at app.py:121 is case-sensitive. So a phrase present only in
another case leaves the text unchanged (`StripIntroEffect`).

The test `"```" not in clarity_code` at app.py:142 can never hold, because it
sits inside the `if "```" in clarity_code` of line 126. `FilterFenceLines`
keeps that test as written. Its postcondition shows the output does not
depend on it. As a result, a reply that still contains "```" after the intro
loop, but has no fence line, sanitizes to the empty string
(`SanitizeWithoutFenceLineIsEmpty`).

## Model

| member | source | states |
|---|---|---|
| Text.TrimStart | backend/app.py:102 | the result is a suffix of the input; every character dropped is whitespace; the result does not start with whitespace |
| Text.TrimEnd | backend/app.py:102 | the result is a prefix of the input; every character dropped is whitespace; the result does not end with whitespace |
| Text.Trim | backend/app.py:102 | `strip()` is no longer than its input and neither starts nor ends with whitespace |
| Text.TrimIsInnerSlice | backend/app.py:102 | `strip()` returns the contiguous slice of the input that starts after the leading whitespace |
| Text.TrimDropsOnlySpace | backend/app.py:102 | every character before and after that slice is whitespace |
| Text.TrimStartAllSpace | backend/app.py:102 | an all-whitespace text loses every character to the leading strip |
| Text.TrimEmptyIffAllSpace | frontend/src/components/CodeConverter.js:52 | `trim()` is empty exactly when the text is all whitespace, in both directions |
| Text.TrimIdempotent | backend/app.py:123 | stripping an already stripped text changes nothing |
| Text.LowerChar | backend/app.py:119 | ASCII capitals map to the matching lower-case letter; every other character is unchanged |
| Text.Lower | backend/app.py:133 | `lower()` keeps the length and lower-cases character by character |
| Text.FindFirst | backend/app.py:119 | a returned index is an occurrence with no earlier occurrence before it; None means no occurrence at any index |
| Text.FindFirstAtStart | backend/app.py:121 | a text that starts with the phrase finds it at index 0 |
| Text.LowerPreservesOccurrence | backend/app.py:119 | an occurrence at index i is still an occurrence at i after lower-casing both strings |
| Text.ContainsImpliesContainsLower | backend/app.py:119-121 | an exact-case occurrence always passes the case-insensitive test, so the split is reached |
| Text.SplitOnce | backend/app.py:121-122 | `split(sep, 1)` gives one part, the whole text, when sep is absent; otherwise two parts around the first occurrence that rebuild the text |
| Text.Split | backend/app.py:128 | `split("\n")` yields at least one line and no line contains the separator |
| Text.JoinSplit | backend/app.py:128 | joining the split lines with the separator restores the text |
| Text.SplitJoin | backend/app.py:145 | splitting a join of separator-free lines gives the lines back |
| Text.Join | backend/app.py:145 | defines `sep.join(parts)`: the parts with the separator between consecutive ones; specified by JoinSplit and SplitJoin |
| Text.Contains | backend/app.py:119 | defines Python's `p in s` as "FindFirst finds an occurrence", hence as "some index holds an occurrence"; also used for the test at line 126 |
| Text.StartsWith | backend/app.py:134 | defines `s.startswith(p)`: `p` is no longer than `s` and equals its first `len(p)` characters |
| Sanitizer.StripIntro | backend/app.py:119-123 | one turn of the intro loop; the text never grows, and a changed text held the phrase in exact case and lost at least the phrase's length |
| Sanitizer.StripIntros | backend/app.py:118-123 | the intro loop over a phrase list, each phrase applied to the previous result; the text never grows |
| Sanitizer.StripIntroEffect | backend/app.py:119-123 | with an exact-case occurrence the text becomes the stripped remainder after the first occurrence; otherwise, including a match in another case only, it is unchanged |
| Sanitizer.StripLeadingIntro | backend/app.py:121-123 | a reply that opens with the phrase loses the phrase and the whitespace after it |
| Sanitizer.StripIntrosAppend | backend/app.py:118-123 | the phrases apply in list order, each to the previous result, so removals compound |
| Sanitizer.StripIntrosNoMatch | backend/app.py:118-123 | when no phrase occurs in exact case, the intro loop leaves the text unchanged |
| Sanitizer.StripIntroPhrases | backend/app.py:118-123 | the intro loop computes the ordered composition of single-phrase removals |
| Sanitizer.IsFenceLine | backend/app.py:134 | defines a fence line: its lower-cased form starts with "```clarity" or "```lisp" or equals "```", with no trimming |
| Sanitizer.FenceLineStartsWithFence | backend/app.py:134 | every fence line starts with "```" as written, since lower-casing never produces a backtick |
| Sanitizer.FenceCount | backend/app.py:134 | defines the number of lines the fence test accepts |
| Sanitizer.KeptLines | backend/app.py:132-143 | defines the kept lines without the flag: a line is kept when it is not a fence line and an odd number of fence lines precede it |
| Sanitizer.KeptLinesAndFencesFit | backend/app.py:132-143 | kept lines plus fence lines never outnumber the input lines |
| Sanitizer.KeptLinesAreNonFenceSubsequence | backend/app.py:132-143 | the kept lines are a subsequence of the input lines, each an input line, and none is a fence line |
| Sanitizer.FenceCountAppendFenceFree | backend/app.py:134-139 | lines without fences do not change the fence count |
| Sanitizer.KeptLinesSnoc | backend/app.py:132-143 | one more line is kept exactly when it is not a fence and an odd number of fences precede it; a fence adds one to the count |
| Sanitizer.KeptLinesAppendFenceFree | backend/app.py:141-143 | fence-free lines are all kept after an odd number of fences and all dropped after an even number |
| Sanitizer.FilterStep | backend/app.py:132-143 | one turn of the line loop: the line is kept exactly when it is not a fence and the parity before it is odd, and a fence line flips the parity |
| Sanitizer.FenceLineToggles | backend/app.py:134-139 | a fence line is never kept and flips the inside/outside parity |
| Sanitizer.UnmatchedFenceKeepsRest | backend/app.py:134-143 | an opening fence with no closing fence keeps every later line |
| Sanitizer.ClosingFenceDropsRest | backend/app.py:134-143 | after a closing fence, the lines up to the next fence are dropped |
| Sanitizer.ClosedBlockKeepsBody | backend/app.py:132-145 | an opening fence, body and closing fence add exactly the body |
| Sanitizer.NoFenceLineKeepsNothing | backend/app.py:132-143 | with no fence line, no line is kept |
| Sanitizer.FilterFenceLines | backend/app.py:126-145 | the line loop, with its toggled flag and the dead test at line 142, computes the parity-defined kept lines joined by newlines, or returns the text unchanged when there is no fence marker |
| Sanitizer.RemoveFencesWithoutMarker | backend/app.py:126 | without "```" the fence step returns its input unchanged |
| Sanitizer.RemoveFences | backend/app.py:126-145 | defines the fence step: with "```" in the text, the kept lines of its "\n"-split joined by "\n"; otherwise the text itself |
| Sanitizer.RemoveFencesOutputLines | backend/app.py:128-145 | with "```" present: when at least one line is kept, the output splits back into exactly the kept lines; when none is kept, the output is "" |
| Sanitizer.RemoveFencesWithoutFenceLineIsEmpty | backend/app.py:126-145 | "```" present but no fence line gives the empty string |
| Sanitizer.SanitizeWith | backend/app.py:102-145 | defines the sanitizer for a phrase list: strip, then the intro loop, then the fence step |
| Sanitizer.SanitizeUsing | backend/app.py:102-145 | strip, then the intro loop, then the line loop, compute the sanitizer function for any phrase list |
| Sanitizer.Sanitize | backend/app.py:102-145 | the handler's sanitizer with its six phrases computes the sanitizer function |
| Sanitizer.SanitizeIdentity | backend/app.py:102-126 | no exact-case phrase and no "```" in the stripped reply returns the stripped reply unchanged |
| Sanitizer.SanitizeWithoutFenceLineIsEmpty | backend/app.py:102-145 | a reply left with "```" but no fence line after the intro loop sanitizes to "" |
| ConvertGuard.Truthy | backend/app.py:47 | defines Python truthiness of a decoded JSON value: null, false, 0 and empty strings, arrays and objects are falsy |
| ConvertGuard.KeyMissing | backend/app.py:40 | defines `not GROQ_API_KEY`: the key is unset or empty |
| ConvertGuard.CheckConvertRequest | backend/app.py:40-49 | a missing or empty key gives 500 "Groq API key is not configured"; otherwise a non-object body crashes; a missing or falsy solidityCode gives 400 "No Solidity code provided"; otherwise the guard passes that exact value; each case is an if-and-only-if |
| ConvertGuard.KeyCheckedBeforeBody | backend/app.py:40-42 | without a key, every body gets the same 500 answer |
| ConvertGuard.BodyDecidesOnceKeyIsSet | backend/app.py:44-49 | with a key set, the outcome does not depend on which key |
| ConvertGuard.WhitespaceCodePasses | backend/app.py:44-49 | whitespace-only code passes the backend guard though the frontend's trimmed test treats it as blank |
| CodeConverter.OrEmpty | frontend/src/components/CodeConverter.js:64 | JavaScript's or-default to '' gives the string when it is non-empty and '' when it is missing or empty |
| CodeConverter.PushVersion | frontend/src/components/CodeConverter.js:68 | the new version is first, the history is capped at ten, and each earlier entry moves back one place |
| CodeConverter.PushVersionKeepsOrder | frontend/src/components/CodeConverter.js:68 | under the cap nothing is dropped; at the cap only the oldest entry is dropped |
| CodeConverter.PushAll | frontend/src/components/CodeConverter.js:66-68 | the history after a run of successful conversions; started within ten entries it stays within ten, and the newest version is first |
| CodeConverter.PushAllIsNewestFirst | frontend/src/components/CodeConverter.js:66-68 | after any run of conversions the history is the newest ten versions, newest first |
| CodeConverter.KindOf | frontend/src/components/CodeConverter.js:74-86 | the failure cases in precedence order: ERR_NETWORK first, then a response, then a sent request with no response, then everything else |
| CodeConverter.SubmitErrorMessage | frontend/src/components/CodeConverter.js:74-86 | each case's message, with the server's error or "Unknown server error" after "Server error: " |
| CodeConverter.MessageRevealsKind | frontend/src/components/CodeConverter.js:74-86 | the case can be read back from the message's opening words, and no message is empty |
| CodeConverter.DeployErrorMessage | frontend/src/components/CodeConverter.js:110 | the server's error, else the error message, else "Deploy failed"; never empty |
| CodeConverter.ConverterState.Valid | frontend/src/components/CodeConverter.js:64-68 | the invariant every handler keeps: at most ten versions, each holding non-empty code, because only truthy output is pushed |
| CodeConverter.ConverterState.constructor | frontend/src/components/CodeConverter.js:11-20 | the initial state: empty code, empty history, no selection, not loading |
| CodeConverter.ConverterState.SetSolidityCode | frontend/src/components/CodeConverter.js:139 | the editor changes the input and nothing else |
| CodeConverter.ConverterState.BeginSubmit | frontend/src/components/CodeConverter.js:50-59 | blank or whitespace-only input sets "Please enter Solidity code to convert" and changes nothing else; otherwise loading starts and the error and output are cleared |
| CodeConverter.ConverterState.FinishSubmit | frontend/src/components/CodeConverter.js:61-89 | non-empty output is pushed as the newest version and selected; empty output leaves history and selection alone; a failure sets its message and leaves history unchanged; loading always ends; history stays within ten non-empty versions |
| CodeConverter.ConverterState.HandleSubmit | frontend/src/components/CodeConverter.js:50-90 | the whole submit: the guard, then the outcome as above, with output cleared on failure |
| CodeConverter.ConverterState.RestoreVersion | frontend/src/components/CodeConverter.js:92-95 | the index is selected as given; the output becomes that version's code, which is non-empty, or '' out of range |
| CodeConverter.ConverterState.BeginDeploy | frontend/src/components/CodeConverter.js:97-101 | blank output changes nothing; otherwise deploying starts and the previous result and error are cleared |
| CodeConverter.ConverterState.FinishDeploy | frontend/src/components/CodeConverter.js:102-113 | the reply becomes the result or the failure sets its message; deploying always ends |
| CodeConverter.ConverterState.HandleDeploy | frontend/src/components/CodeConverter.js:97-114 | the whole deploy: the guard, then the outcome, with a non-empty message on failure |

## Left out

- Text.IsSpace, Text.Trim: whitespace is ASCII space plus `\t` `\n` `\v` `\f` `\r`. Python's `strip()` also removes the ASCII separators `\x1c`-`\x1f`, which JavaScript's `trim()` keeps. Both also remove Unicode spaces. The model removes none of these.
- Text.Lower: only 'A'..'Z' are lower-cased. Python's Unicode case mapping is not modelled.
- ConvertGuard.CheckConvertRequest: JSON numbers are integers. Float truthiness and `get_json` failures on a non-JSON body are not modelled.
- Flask setup, routing, OPTIONS handling, CORS headers, environment loading and logging in `backend/app.py`: framework plumbing with no decisions. The API key is a parameter.
- The Groq request, `raise_for_status`, JSON decoding and envelope indexing (backend/app.py:51-102): network I/O. The model starts from the reply text.
- The exception-to-status mapping and the `test_groq` route: error plumbing around I/O.
- The deploy and explain endpoints: the frontend posts to `/api/deploy` and `/api/explain`, but `backend/app.py` defines no such routes. Only the frontend's deploy handler is modelled, with the reply as a parameter.
- React rendering, the health probe in `useEffect`, the clipboard and `setTimeout` in CodeConverter.js, the `console.error` logging in `handleSubmit`'s catch (CodeConverter.js:72), and the components `Tutor.js` and `App.js`: UI and async I/O. The model has no `backendStatus` or `copied` state.
- CodeConverter.ConverterState.HandleSubmit, CodeConverter.ConverterState.HandleDeploy: no other event runs between the request and its reply. React may interleave events at an `await`; the Begin/Finish methods model each half alone.
- CodeConverter.DeployErrorMessage: the server's error and `err.message` are strings. Other JavaScript values that `||` would test for truthiness are not modelled.
