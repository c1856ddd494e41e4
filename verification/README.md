# Chemical name ⇄ formula lookup, modelled in Dafny

The tool takes a chemical name or formula typed into a page. It decides which of the
two the text is, asks the PubChem compound service for the other one, and polls when
the service defers its answer. It then shows the name and the formula, with the
formula's digits rendered as Unicode subscripts. All of its logic is in `script.js`.
This project models that logic in four modules:

- `Options` (`options.dfy`): the `Option` datatype, standing for `null`/`undefined` against a present value.
- `Formula` (`formula.dfy`): `isFormula` and `formatWithSubscript`. The formatter is modelled as the
  global regular-expression replace it is: the escape alternative `\\\d` is tried first, then the
  greedy digit run `\d+`, and every other position is copied. `Scan`, a character-by-character
  reference definition, is proved equal to it. The identity, numeral-order and locality
  properties are proved through `Scan`.
- `PubChem` (`pubchem.dfy`): the parsed JSON reply as a datatype. The JSON is `Waiting` with an
  optional `ListKey`, `Fault` with its `Code`, and `PC_Compounds` as a list of compounds, each a list
  of (label, optional `sval`) properties. A reply whose `fetch` or `response.json()` threw is the
  variant `Thrown`. The module holds the decision chains of the two fetch functions and the poll loop
  of `pollForResult`. The loop is an imperative `while` loop over the replies to its successive
  requests, proved equal to the recursive `PollSpec`.
- `Orchestrator` (`orchestrator.dfy`): `translateCompound`. This is `trim` with ECMAScript's
  whitespace set, plus a `Translator` class holding the mutable `isRequestInProgress` flag. The
  `await` in the middle of `translateCompound` is where another call can slip in. The function is
  therefore split at that point into `Begin` (the guard and the dispatch, which set the flag) and
  `Complete` (rendering, which clears it). `Translate` runs both halves for a call that nothing
  overlaps. `OverlappingCalls` shows a second call made while the first is still in flight.

JavaScript truthiness is written out. A `ListKey` or `sval` that is the empty string counts as
absent, because `data.Waiting.ListKey` and `name || "Unknown"` test for a truthy value.

Two behaviours of `script.js` are kept as written:

- Inside the poll loop, a reply that is neither waiting, nor a bad-request fault, nor a non-empty
  compound list makes the loop poll again at once, without sleeping. A fault with another code is
  one such reply.
- The fetch functions delegate to polling only when `Waiting.ListKey` is truthy. The poll loop
  waits on a `Waiting` object alone.

## Model

| member | source | states |
|---|---|---|
| Formula.IsFormula | script.js:6-8 | the two regular-expression tests together hold exactly when the text contains an ASCII digit |
| Formula.ClassifierExamples | script.js:6-8 | "H2O", "B12" and "vitamin B12" are classified as formulas; "water" and the empty string are not |
| Formula.Subscript | script.js:18 | a digit d becomes the subscript digit with code 8320 + d, which is neither an ASCII digit nor a backslash |
| Formula.DigitRunLength | script.js:12 | the greedy `\d+` match is a run of digits that stops at a non-digit or the end, and is non-empty when the text starts with a digit |
| Formula.ReplaceIsScan | script.js:12-21 | replacing whole digit runs gives the same text as a left-to-right scan that subscripts one digit at a time and drops the backslash of an escaped digit |
| Formula.FormatWithSubscript | script.js:11-22 | the global replace of `\\\d` and `\d+`; its output is as long as the input minus the number of escaped backslash–digit pairs |
| Formula.FormatDigitFree | script.js:12-21 | text without a digit is returned unchanged |
| Formula.FormatPointwise | script.js:16-19 | for text without a backslash, every position keeps its place; a digit becomes its subscript and anything else is copied |
| Formula.FormatKeepsNumerals | script.js:12-21 | the numerals of the output, plain or subscript, are those of the input in the same order; the plain digits left are exactly the escaped digits, with the same values in the same order |
| Formula.FormatConcat | script.js:12-14 | an escape covers only the one digit right after its backslash, so two pieces can be formatted apart unless a backslash ends the first and a digit starts the second |
| Formula.FormatterExamples | script.js:16-19 | "H2O" gives "H₂O" and "C12" gives "C₁₂" |
| Formula.EscapeExamples | script.js:12-14 | "Fe\\2O3" gives "Fe2O₃" and "\\23" gives "2₃": an escape keeps one digit at normal size |
| PubChem.Find | script.js:98-99 | `find` returns none exactly when no property has the label; otherwise it returns the first property with it |
| PubChem.LookUp | script.js:98-103 | the looked-up field is never empty, and is "Unknown" when no property carries the label |
| PubChem.LookUpValue | script.js:98-103 | the looked-up field is the first matching property's `sval` when that is present and non-empty, and "Unknown" otherwise; it is never empty |
| PubChem.ByFormulaOrder | script.js:85-109 | a truthy `ListKey` delegates to polling before any other check; then a bad-request fault gives none; then the first compound gives the IUPAC name with the formula echoed; anything else gives none |
| PubChem.ByNameOrder | script.js:121-146 | the same order for the by-name fetch: a truthy `ListKey` first, then a bad-request fault, then the first compound's "Molecular Formula" with the name echoed; anything else gives none |
| PubChem.DecideByFormula | script.js:85-109 | delegation happens only on a waiting reply with a non-empty key; a result comes only from a reply with a first compound and no bad-request fault, echoes the formula and has a non-empty name |
| PubChem.DecideByName | script.js:121-146 | delegation happens only on a waiting reply with a non-empty key; a result comes only from a reply with a first compound and no bad-request fault, echoes the name and has a non-empty formula |
| PubChem.ByNameMirrorsByFormula | script.js:113-147 | the by-name fetch reaches the same kind of outcome as the by-formula fetch for every reply, delegates with the same key, and echoes the name instead of the formula |
| PubChem.ExtractBoth | script.js:176-186 | both fields of a polled result are non-empty, and each is "Unknown" when no property carries its label |
| PubChem.StepOf | script.js:163-173 | a loop iteration sleeps exactly on a `Waiting` object; stops with none exactly on an exception or a bad-request fault without `Waiting`; a ready result comes from the first compound; it polls again at once exactly when a reply has no `Waiting`, no bad-request fault and no compound, so a reply with a compound always stops the loop |
| PubChem.PollSpec | script.js:154-186 | a poll run issues at most one request per reply and sleeps less often than it requests when it ends; it is still polling only after using every reply; a result has both fields non-empty |
| PubChem.DelegateMeansWaiting | script.js:85-87 | every reply a fetch delegates on would make the poll loop sleep |
| PubChem.FirstStop | script.js:158-174 | finds the first reply that ends the loop; no earlier reply ends it |
| PubChem.PollEndsAtFirstStop | script.js:158-186 | the loop ends at the first stopping reply with that reply's result, after one request per reply up to it and one sleep per earlier waiting reply; with no stopping reply it is still polling |
| PubChem.WaitThenReady | script.js:158-186 | a waiting reply followed by a ready compound takes two requests and one sleep and gives both of that compound's fields |
| PubChem.UnmatchedRepliesRepollWithoutSleep | script.js:158-174 | replies that match no branch keep the loop polling without ever sleeping |
| PubChem.PollAgreesWithFetch | script.js:166-186 | on a reply without a waiting marker the poll loop and both fetches agree: a stop with none is a fetch's none, a ready compound gives the fetch's looked-up field, and a reply the loop re-polls on is a fetch's none |
| PubChem.PollForResult | script.js:150-193 | the `while (isWaiting)` loop returns the outcome, request count and sleep count of `PollSpec` on the same replies |
| PubChem.FetchByFormula | script.js:77-110 | a lookup is left polling only after a reply with a truthy `ListKey`; any result has a non-empty name, a result not obtained by polling echoes the formula, and after a truthy `ListKey` the outcome is that of `pollForResult` on the later replies |
| PubChem.FetchByName | script.js:113-147 | a lookup is left polling only after a reply with a truthy `ListKey`; any result has a non-empty formula, a result not obtained by polling echoes the name, and after a truthy `ListKey` the outcome is that of `pollForResult` on the later replies |
| PubChem.FailuresCollapseToNone | script.js:77-147 | an exception, a bad-request fault and an empty reply each end a fetch with no result |
| Orchestrator.TrimStart | script.js:26 | removes exactly a whitespace prefix, leaving text that does not start with whitespace |
| Orchestrator.TrimEnd | script.js:26 | removes exactly a whitespace suffix, leaving text that does not end with whitespace |
| Orchestrator.Trim | script.js:26 | the result is a slice of the input with only whitespace cut off around it, and has whitespace at neither end |
| Orchestrator.TrimEmpty | script.js:26-35 | the trimmed input is empty exactly when the input is all whitespace |
| Orchestrator.Classify | script.js:55-59 | text holding a digit goes to the by-formula fetch and any other text to the by-name fetch, unchanged |
| Orchestrator.Resolve | script.js:55-59 | the dispatched fetch is left polling only after a truthy `ListKey`, and then gives the poll loop's outcome; a by-formula result has a name and a by-name result has a formula; a result not obtained by polling echoes the query's formula or name; a reply without a truthy `ListKey` or a bad-request fault but with a compound always gives a result |
| Orchestrator.Render | script.js:62-69 | "Compound not found." is shown exactly when there is no result; otherwise the text is the "Name:" label, the name, the "Formula:" label and the subscripted formula, in that order |
| Orchestrator.Translator.constructor | script.js:3 | the flag starts false |
| Orchestrator.Translator.Begin | script.js:25-59 | empty input shows "Please enter…" and leaves the flag as it was; a set flag shows "Please wait…" and dispatches nothing; otherwise the flag is set and the classified input is dispatched |
| Orchestrator.Translator.Complete | script.js:61-73 | shows the name and the subscripted formula, or "Compound not found.", and clears the flag either way |
| Orchestrator.Translator.Translate | script.js:25-74 | a call nothing overlaps shows the message for its input and outcome, and clears the flag once the lookup has finished |
| Orchestrator.OverlappingCalls | script.js:41-49 | a second call made while the first is in flight is told to wait and dispatches nothing, and the flag is clear once the first completes |
| Orchestrator.NotFoundIsGeneric | script.js:61-69 | an exception, a bad-request fault, an empty compound list and an empty reply all show the same "Compound not found." |

## Left out

- Network access (`fetch`, `response.json()`) and URL building with `encodeURIComponent`. Replies are
  given as values, and an exception from either call is the `Thrown` reply. A body that parses to
  JSON `null` throws on its first field access (script.js:85, 121, 163) and is also `Thrown`. A body
  that parses to a number, a string or an array has none of the fields read, so it acts as the
  empty reply `Response(None, None, None)`.
- `encodeURIComponent` failing. It is called before the `try` (script.js:78, 114) and throws
  `URIError` on text holding an unpaired surrogate, which a Dafny string cannot hold. The error
  escapes `translateCompound` at its `await` (script.js:56, 58) before line 72 runs. This is the
  one path on which `isRequestInProgress` is never cleared, so every later lookup is told to wait.
- The `setTimeout` sleep and the 2000 ms `POLLING_INTERVAL`. The model only counts the sleeps.
- PollForResult: runs over a finite sequence of replies. When the sequence ends before a stopping
  reply the outcome is `Pending`, whereas the page would go on polling with no bound.
- Compound records with a missing `props`, `urn` or `value` object. In the page these throw a
  `TypeError`, which is caught, and the fetch gives no result. The model's properties always have a
  label and an optional `sval`.
- The fault's `Message` is carried in the datatype but only logged by the page. `console.log` and
  `console.error` are not modelled.
- DOM access, `innerHTML` and `style.display`, the loading spinner and the Enter-key listener. The
  model returns the markup that is assigned to `innerHTML`. That is the `<strong>` and `<br>` tags,
  with the name inserted unescaped.
- Interleaving of asynchronous calls. Calls are a sequence of `Begin`/`Complete` steps on one
  `Translator`, not concurrent executions.
