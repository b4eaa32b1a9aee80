# OmniParser VLM agent: response recovery and action materialisation

This project models one step of OmniParser's `VLMAgent` loop in Dafny and
proves properties of the model. In a step, the agent:

- cleans the caller's message history;
- appends the new screenshot paths;
- routes the request to a provider;
- recovers an action directive from the model's free-form reply: it extracts
  a JSON-looking region, cleans it, parses it, repairs and re-parses it, and
  falls back to a synthetic "screenshot" directive when both parses fail;
- turns the directive into a plan string and an ordered list of tool-use
  blocks for the executor.

The JSON-parsing debug tool is modelled too: its copy of the extractor with
diagnostics, and its analysis pass, which replays the agent's cleanup.

Modules (one file each):

- `Wrappers`: `Option` and `Result`.
- `Text`: Python string primitives over `seq<char>`. These are `strip` and
  `isspace` (Python's whitespace set), `startswith`, `endswith`, `in`,
  `find` and `rfind`.
- `PyJson`:
  - JSON values, with dicts as ordered key/value sequences.
  - `d[k] = v`.
  - `repr` and `str` of values as the plan string shows them.
  - `int()` on a JSON value, and Python's list indexing.
- `Extractor`: `extract_data`. Its four regular expressions are written as
  leftmost-match functions, tried in order. After them comes the
  brace-counting scan, and last the trimmed input.
- `Repair`: fence stripping, the trailing-comma pass, the empty-text default,
  the retry text, the failure reason and the fallback directive.
- `Actions`:
  - the Box ID lookup and the centroid, with truncation as `int()` does it;
  - the plan string, built by a loop;
  - the response blocks.
- `History`:
  - the message history as a `Conversation` object whose `messages` field
    is edited in place;
  - the removal of annotated ("som") screenshots;
  - the oldest-first image trimming with its decrementing counter;
  - the screenshot append.
- `Agent`:
  - the menu-name table;
  - provider routing with the `min(2048, max_tokens)` clamp;
  - the `VlmAgent` class with its step and token counters, and one step.
- `DebugTool`: `extract_data_debug` and `analyze_json_parsing_issues`.
- `Scenario`: one complete reply traced end to end. A fenced object with a
  trailing comma becomes a cursor move and a click.

Two collaborators are function-typed parameters:

- the JSON decoder `json.loads`. The debug tool takes it as `DebugTool.Loads`,
  which yields a value of any JSON type. The agent's view of it is
  `Repair.Parser`, which yields an object's entries;
- `is_image_path`, whose definition is not part of this model.

The provider call is a parameter of `VlmAgent.Step` as well. It returns the
reply text and the token count.

## Behaviour worth knowing

- **Last resort of the extractor.** When nothing else matches, the
  extractor returns the input with surrounding whitespace trimmed
  (`omnitool/gradio/agent/vlm_agent.py:64`).
- **Exceptions reach the caller.** A step raises `KeyError` when
  "Next Action" is missing, and when "type" comes without "value". It raises
  `IndexError` on an empty history and `ValueError` for an unknown model.
  The model returns these as `Err` results.
- **Action names are not checked.** Any "Next Action" string becomes an
  action block as it is.
- **The brace-counting scan never reports.** Its early return is
  unreachable: the fourth pattern already matches whenever a `}` follows a
  `{` (`Extractor.DepthScanNeverReturns`). So the debug tool never reports
  the scan as its extraction method (`DebugTool.NeverReportsScan`).

## Model

| member | source | states |
|---|---|---|
| Text.Strip | omnitool/gradio/agent/vlm_agent.py:64 | `str.strip()`: the result is the slice between the leading and the trailing whitespace, starts and ends with a non-space, and is empty exactly when the text is all whitespace |
| Text.StripIdempotent | omnitool/gradio/agent/vlm_agent.py:222-232 | trimming twice is trimming once |
| Text.FindChar | omnitool/gradio/agent/vlm_agent.py:52 | `str.find`: -1 or the index of the first occurrence, with no occurrence before it |
| Text.FindLastChar | omnitool/gradio/agent/vlm_agent.py:259 | `str.rfind`: -1 or the index of the last occurrence, with no occurrence after it |
| PyJson.Set | omnitool/gradio/agent/vlm_agent.py:288 | `d[k] = v`: the key maps to `v`, every other key keeps its presence and value. An existing key keeps its place and every other entry is untouched; a new key is appended at the end |
| PyJson.PyIndex | omnitool/gradio/agent/vlm_agent.py:287 | Python list indexing: valid exactly for `-n <= k < n`, and a negative index counts from the end |
| PyJson.IntOfDecimal | omnitool/gradio/agent/vlm_agent.py:287 | `int()` reads back the decimal text of every integer, signed or not |
| PyJson.DigitsValue | omnitool/gradio/agent/vlm_agent.py:287 | the decimal digits of `n` form a digit run whose value is `n` |
| Extractor.ExtractData | omnitool/gradio/agent/vlm_agent.py:22-64 | the stage loop, then the brace-counting loop, compute `Extracted(s)` |
| Extractor.TryStages | omnitool/gradio/agent/vlm_agent.py:41-48 | the pattern loop returns the first stage with a match and its trimmed leftmost match |
| Extractor.CountToClose | omnitool/gradio/agent/vlm_agent.py:52-61 | the brace-counting loop finds the `}` that brings the depth back to zero, as `ScanClose` defines it |
| Extractor.ScanClose | omnitool/gradio/agent/vlm_agent.py:52-61 | a scan result is a position at or after the start that holds `}` |
| Extractor.ExtractedIsStrippedSlice | omnitool/gradio/agent/vlm_agent.py:26-64 | "" for "", and otherwise the result is a substring of the input with no surrounding whitespace |
| Extractor.PlainTextIsStripped | omnitool/gradio/agent/vlm_agent.py:26-64 | an input with no `{` and no three backticks gives back `input.strip()` |
| Extractor.BareObjectMatchesIfClosed | omnitool/gradio/agent/vlm_agent.py:38 | whenever some `}` follows some `{`, the bare-object pattern matches, so some stage wins |
| Extractor.DepthScanNeverReturns | omnitool/gradio/agent/vlm_agent.py:38-64 | when no pattern matches, the depth scan never returns a span, and the result is `input.strip()` |
| Extractor.LabelledFenceWins | omnitool/gradio/agent/vlm_agent.py:30-48 | a ```json fence with no backtick before it or inside it wins: the result is exactly the fenced text, trimmed, whatever follows |
| Extractor.LabelledFenceAt | omnitool/gradio/agent/vlm_agent.py:30-48 | with the first fence at a ```json opener, the lazy group up to the next fence, trimmed, is the result |
| Extractor.FencedGroupIsStripped | omnitool/gradio/agent/vlm_agent.py:31 | the `\s*(.*?)\s*` group between an opener and the closing fence equals the trimmed text between them |
| Repair.StripFences | omnitool/gradio/agent/vlm_agent.py:222-232 | fence stripping never lengthens the text, and its result is trimmed |
| Repair.CutToBraces | omnitool/gradio/agent/vlm_agent.py:259 | when some `{` comes before some `}`, the result is the span from the first `{` to the last `}`; otherwise the text is unchanged. The result is always a substring of the text |
| Repair.CutToBracesIdempotent | omnitool/gradio/agent/vlm_agent.py:259 | cutting to the brace span twice is cutting once |
| Repair.CommaCleanIff | omnitool/gradio/agent/vlm_agent.py:236 | the comma pass leaves a text unchanged exactly when no comma in it is followed by whitespace and a closer |
| Repair.DropCommasSkipsOne | omnitool/gradio/agent/vlm_agent.py:236 | with one deletable comma, the pass deletes that comma and keeps every other character in order |
| Repair.TrailingCommaRemoved | omnitool/gradio/agent/vlm_agent.py:236 | one comma inserted before the whitespace and closer of a comma-clean text is removed again |
| Repair.SinglePassLeavesOneComma | omnitool/gradio/agent/vlm_agent.py:236-257 | the pass is single: ",,}" becomes ",}" in the first cleanup, and the retry's pass turns ",}" into "}" |
| Repair.StripFencesWithoutBackticks | omnitool/gradio/agent/vlm_agent.py:222-232 | without backticks, fence stripping is plain trimming |
| Repair.StripFencesOfObjectText | omnitool/gradio/agent/vlm_agent.py:222-232 | a text from `{` to `}` passes fence stripping unchanged |
| Repair.FallbackDirective | omnitool/gradio/agent/vlm_agent.py:278-282 | the fallback directive's "Next Action" is "screenshot", and it has no "Box ID" |
| Repair.EmptyShortCircuit | omnitool/gradio/agent/vlm_agent.py:222-247 | the cleaned text is empty or all whitespace exactly when fence stripping left nothing. Then the default directive is used without calling the parser. Otherwise a successful first parse is taken as it is |
| Repair.FallbackAfterTwoFailures | omnitool/gradio/agent/vlm_agent.py:246-282 | when both parses fail, the directive is the fallback with the reason read from the first attempt's text. The reason is never "Empty response", and it is "Invalid JSON syntax" exactly when the trimmed text starts with `{` and ends with `}` |
| Repair.TrailingCommaTolerated | omnitool/gradio/agent/vlm_agent.py:222-282 | one trailing comma before the closing `}` of an object text does not change the directive |
| Actions.Trunc | omnitool/gradio/agent/vlm_agent.py:288 | `int()` of a float truncates toward zero, on both signs |
| Actions.TruncatesTowardZero | omnitool/gradio/agent/vlm_agent.py:288 | truncation, not rounding: 99.9 gives 99, -0.5 gives 0 and -1.5 gives -1 |
| Actions.CentroidOnScreen | omnitool/gradio/agent/vlm_agent.py:288 | a box inside the unit square gives a coordinate on the screen |
| Actions.CentroidExample | omnitool/gradio/agent/vlm_agent.py:288 | the box (0.1, 0.2, 0.3, 0.4) on a 1000 by 500 screen gives (200, 150) |
| Actions.ResolveBox | omnitool/gradio/agent/vlm_agent.py:285-303 | a coordinate is found exactly when "Box ID" is present, `int()` accepts it, it is a valid Python index and the element has a box. It is then the centroid of the box of exactly the element that index selects |
| Actions.WithCoordinate | omnitool/gradio/agent/vlm_agent.py:285-303 | the directive gains `box_centroid_coordinate` when the Box ID resolves, stays unchanged otherwise, and keeps every other key and value. A new coordinate entry is appended after all existing entries; an existing one is overwritten in its place, with key order unchanged |
| Actions.IntBoxIdPicks | omnitool/gradio/agent/vlm_agent.py:285-288 | an integer Box ID inside the list picks that element, counted from the end when negative. The coordinate is that element's centroid, or none when it has no box |
| Actions.NegativeBoxIdFromEnd | omnitool/gradio/agent/vlm_agent.py:287 | Box ID -1 picks the last element |
| Actions.TextualBoxId | omnitool/gradio/agent/vlm_agent.py:287 | a Box ID given as the decimal text of an integer resolves like the integer |
| Actions.OutOfRangeBoxIdIgnored | omnitool/gradio/agent/vlm_agent.py:285-303 | an index outside the list on either side is swallowed, and the directive is left as it was |
| Actions.PlanText | omnitool/gradio/agent/vlm_agent.py:312-317 | the accumulating loop computes the plan string `Plan(d)` |
| Actions.PlanConcat | omnitool/gradio/agent/vlm_agent.py:312-317 | the plan of two dicts joined is the two plans joined |
| Actions.PlanShowsEntry | omnitool/gradio/agent/vlm_agent.py:312-317 | every entry shows in the plan, in dict order: the Reasoning value bare, any other entry as "\nkey: value" |
| Actions.BuildResponse | omnitool/gradio/agent/vlm_agent.py:319-338 | the appending code builds exactly `BlocksFor(d, Plan(d))` |
| Actions.Respond | omnitool/gradio/agent/vlm_agent.py:312-338 | `KeyError` exactly when "Next Action" is missing, or it is "type" without "value". Otherwise the blocks are: the plan first, then a mouse move exactly when a coordinate is set, then one action block unless the action is "None". That block is exactly `{"action": name}` with the name unchecked, and for "type" it also carries the typed text |
| Actions.FallbackTakesScreenshot | omnitool/gradio/agent/vlm_agent.py:278-338 | the fallback directive produces its reasoning plan and one `screenshot` action |
| Actions.NoneAddsNoAction | omnitool/gradio/agent/vlm_agent.py:327-328 | "None" adds no action block: the only tool use is the cursor move |
| History.TrimEntriesSpec | omnitool/gradio/agent/vlm_agent.py:519-526 | within a `tool_result`, the pass removes the oldest image entries the counter allows, and keeps everything else in order |
| History.TrimItemsSpec | omnitool/gradio/agent/vlm_agent.py:510-529 | within a content list, the pass removes the oldest images the counter allows, lowers the counter by as many, and leaves every other item in place |
| History.TrimMessagesSpec | omnitool/gradio/agent/vlm_agent.py:507-529 | over the history, the removal pass with counter `n` removes the oldest `min(max(n,0), total)` images. It leaves the others as a suffix and the rest of the history unchanged |
| History.CountIsImages | omnitool/gradio/agent/vlm_agent.py:495-503 | when no one-character string is an image path, the first pass counts exactly the removable images |
| History.TotalCoversImages | omnitool/gradio/agent/vlm_agent.py:495-503 | the count is never below the number of removable images |
| History.KeepsMostRecent | omnitool/gradio/agent/vlm_agent.py:482-529 | for `keep >= 0` exactly `min(total, keep)` images remain, they are the most recent ones, and everything that is not an image stays where it was |
| History.KeepRecentOnlyDeletes | omnitool/gradio/agent/vlm_agent.py:482-529 | for any `keep`, message by message, the pass only deletes image paths and image entries inside `tool_result`s. Every other item keeps its place in the order, and roles and string contents are unchanged |
| History.TrimEntriesThins | omnitool/gradio/agent/vlm_agent.py:519-526 | within a `tool_result` the pass only deletes image entries, and the kept entries stay in order |
| History.TrimItemsThins | omnitool/gradio/agent/vlm_agent.py:510-529 | within a content list the pass only deletes image paths, and shrinks `tool_result`s only by image entries. All other items stay in order |
| History.TrimMessagesThins | omnitool/gradio/agent/vlm_agent.py:507-529 | over the history the pass only deletes, message by message, with roles and string contents unchanged |
| History.NegativeKeepRemovesAll | omnitool/gradio/agent/vlm_agent.py:505-529 | a negative `keep` removes every image and nothing else |
| History.DropSomItems | omnitool/gradio/agent/vlm_agent.py:476-479 | an item survives exactly when it was there and is not an image path containing "som" |
| History.DropSomKeepsOthersInOrder | omnitool/gradio/agent/vlm_agent.py:476-479 | items that are not annotated screenshots keep their relative order |
| History.DropSomThins | omnitool/gradio/agent/vlm_agent.py:476-479 | the comprehension deletes exactly the annotated screenshots: every deleted item is one, none remains, and the rest keep their order |
| History.DropSomOnlyDeletes | omnitool/gradio/agent/vlm_agent.py:472-479 | message by message, `_remove_som_images` only deletes annotated screenshots, with roles and string contents unchanged |
| History.DropSomIdempotent | omnitool/gradio/agent/vlm_agent.py:472-479 | dropping annotated screenshots twice is dropping them once |
| History.SomShotDroppedNextStep | omnitool/gradio/agent/vlm_agent.py:124-131 | the annotated screenshot appended in one step is gone after the next step's hygiene |
| History.PlainShotKept | omnitool/gradio/agent/vlm_agent.py:124-130 | the plain screenshot path of a hex uuid survives the next step's removal of annotated images |
| History.CountCharImages | omnitool/gradio/agent/vlm_agent.py:497-499 | iterating a string content counts its one-character image paths |
| History.CountEntryImages | omnitool/gradio/agent/vlm_agent.py:500-503 | the inner counting loop counts the image entries of a `tool_result` |
| History.CountItemImages | omnitool/gradio/agent/vlm_agent.py:497-503 | the counting loop over a content list counts its removable images |
| History.TrimEntryList | omnitool/gradio/agent/vlm_agent.py:519-526 | the inner removal loop computes `TrimEntries` |
| History.TrimItemList | omnitool/gradio/agent/vlm_agent.py:510-529 | the removal loop over one content list computes `TrimItems` |
| History.Conversation.constructor | omnitool/gradio/agent/vlm_agent.py:123 | the conversation holds the caller's messages |
| History.Conversation.RemoveSomImages | omnitool/gradio/agent/vlm_agent.py:472-479 | the messages become `DropSom` of the old messages |
| History.Conversation.CountImages | omnitool/gradio/agent/vlm_agent.py:495-503 | the first pass computes `TotalImages` |
| History.Conversation.FilterToNMostRecentImages | omnitool/gradio/agent/vlm_agent.py:482-529 | the messages become `KeepRecent` of the old messages: untouched for None, else the pass with counter `total - keep` |
| History.Conversation.AppendScreenshots | omnitool/gradio/agent/vlm_agent.py:127-131 | `IndexError` on an empty history. Otherwise the two paths are appended to the last message, after wrapping a string content into a list, and the other messages are unchanged |
| Agent.ResolveModel | omnitool/gradio/agent/vlm_agent.py:78-93 | a name is accepted exactly when it is a key of `MenuTable`, and then gives that entry's model id. Any other name raises `ValueError("Model … not supported")`. Every accepted name starts with "omniparser + " |
| Agent.Route | omnitool/gradio/agent/vlm_agent.py:134-205 | `ValueError` exactly when no branch applies. A "gpt", "o1" or "o3-mini" model goes to OpenAI under any provider. Groq is chosen exactly for an "r1" model outside that family, and Ollama exactly under provider "local" for a model of none of the OpenAI, "r1" and "gemini" families. DashScope needs "qwen" and a provider other than "local". Gemini needs "gemini". The budget is `max_tokens` for OpenAI and Groq and `min(2048, max_tokens)` otherwise. Each endpoint has its own base URL, and only Groq is called without temperature 0. The key is replaced by "dummy" only for Ollama |
| Agent.TableEndpoints | omnitool/gradio/agent/vlm_agent.py:78-205 | every menu entry is routed under any provider: GPT-4o, o1 and o3-mini to OpenAI, R1 to Groq, Gemini to Gemini. Both Qwen entries go to Ollama under provider "local" and to DashScope under any other |
| Agent.LocalQwenRoutesLocally | omnitool/gradio/agent/vlm_agent.py:163-202 | the local Qwen model goes to Ollama under provider "local" and to DashScope under any other |
| Agent.FamilyRoutes | omnitool/gradio/agent/vlm_agent.py:134-202 | a model whose name holds one of the family substrings is routed under any provider |
| Agent.TableModelsKnown | omnitool/gradio/agent/vlm_agent.py:78-93 | every model id of the table belongs to a routed family |
| Agent.TableModelsRoute | omnitool/gradio/agent/vlm_agent.py:134-205 | no model of the table raises `ValueError` when routed, under any provider |
| Agent.VlmAgent.constructor | omnitool/gradio/agent/vlm_agent.py:96-106 | the settings are stored, and both counters start at zero |
| Agent.VlmAgent.Open | omnitool/gradio/agent/vlm_agent.py:67-106 | construction fails exactly when the menu name is outside the table, with its `ValueError`. Otherwise the agent holds the table's model id |
| Agent.VlmAgent.Step | omnitool/gradio/agent/vlm_agent.py:110-340 | the step counter always advances by one. Hygiene runs, then the append: `IndexError` on an empty history. Routing comes next, with a `ValueError` that leaves the token count unchanged. A routed call adds the reply's token usage, and the result is the blocks and directive recovered from the reply |
| DebugTool.ExtractDataDebug | debug_json_parsing.py:13-68 | the content is exactly what the agent's `extract_data` returns, and the report is `Info(s)` |
| DebugTool.TryStagesRecording | debug_json_parsing.py:44-52 | the recording loop finds the agent's first stage, and records the descriptions up to and including it, or all four |
| DebugTool.BraceScan | debug_json_parsing.py:54-68 | the scan returns the agent's scan span, trimmed, and records the method the source leaves in place |
| DebugTool.PatternsTriedInOrder | debug_json_parsing.py:20-52 | the markdown flag is set exactly when the text holds three backticks. The patterns tried are the descriptions in order up to the one that matched, which is the recorded method, or all four |
| DebugTool.NeverReportsScan | debug_json_parsing.py:54-68 | the method name of the brace scan is never the final report, and the whole-text name is reported whenever no pattern matched |
| DebugTool.EmptyInputReport | debug_json_parsing.py:20-30 | empty input gives "" with the single issue "Empty or non-string input" and method "none" |
| DebugTool.Preview | debug_json_parsing.py:83 | the first 200 characters and "..." for a longer reply, else the reply itself |
| DebugTool.StructuralIssues | debug_json_parsing.py:117-123 | at most one structural issue, and none exactly when the cleaned text is not empty, starts with `{` and ends with `}` |
| DebugTool.Analyze | debug_json_parsing.py:71-148 | length, preview, extracted content and debug record are those of the reply. Extraction succeeds exactly when the content is not empty. The two "has" flags are never set |
| DebugTool.AttemptsIssues | debug_json_parsing.py:126-132 | a parse attempt adds one issue exactly when the first parse fails, naming the parser's error |
| DebugTool.NothingExtractedReport | debug_json_parsing.py:144-146 | without extracted content, one issue and one suggestion are recorded and nothing is parsed |
| DebugTool.ParsingSuccessIff | debug_json_parsing.py:125-143 | parsing succeeds exactly when the cleaned text or its repair decodes, and the reported value is the first that does. Suggestions appear exactly when the first parse fails: the syntax hint, then whether the repair rescued it |
| DebugTool.IssuesInOrder | debug_json_parsing.py:117-132 | the issues begin with the structural issue, if any, and a failed first parse adds exactly one more |
| DebugTool.AnalyzeJsonParsingIssues | debug_json_parsing.py:71-148 | the appending code computes `Analyze(response, loads)` |
| DebugTool.RecordAttempts | debug_json_parsing.py:125-143 | the two parse attempts, recorded step by step, compute `Attempts` |
| DebugTool.AnalysisAgreesWithAgent | debug_json_parsing.py:99-143 | when the decoder yields objects, on a non-empty cleaned text the analysis parses exactly when the agent does not fall back, and then reports the agent's directive |
| DebugTool.EntriesOf | debug_json_parsing.py:127-129 | over a decoder that yields objects, the agent's parser succeeds exactly when the decoder does, with the object's entries |
| DebugTool.NonObjectReported | debug_json_parsing.py:126-129 | a text that decodes to a list, string or other non-object still counts as parsed, and that value is reported |
| Scenario.ExtractsFencedObject | omnitool/gradio/agent/vlm_agent.py:30-48 | a ```json fence around an object with a trailing comma extracts to the trimmed object text |
| Scenario.CommaToleratedHere | omnitool/gradio/agent/vlm_agent.py:234-236 | the trailing comma before the final `}` does not change the decision |
| Scenario.DecidesParsedObject | omnitool/gradio/agent/vlm_agent.py:222-247 | the decision is the parser's dict for the comma-free text |
| Scenario.ResolvesWholeScreenBox | omnitool/gradio/agent/vlm_agent.py:285-288 | Box ID 5 with a whole-screen box on 800 by 600 adds the coordinate [400, 300] at the end of the dict |
| Scenario.ScenarioPlan | omnitool/gradio/agent/vlm_agent.py:312-317 | the plan is the reasoning, then "Next Action", "Box ID" and coordinate lines |
| Scenario.RespondsWithMoveAndClick | omnitool/gradio/agent/vlm_agent.py:319-338 | the response is the plan, a mouse move to [400, 300] and a left click |
| Scenario.TrailingCommaClick | omnitool/gradio/agent/vlm_agent.py:217-340 | the whole recovery and materialisation of this reply gives those blocks and the directive with its coordinate |

## Left out

- **Provider I/O.** The HTTP and SDK clients (OpenAI, Groq, DashScope, Gemini
  and Ollama transports) and the proxy manager are left out. They are
  network and OS-environment code. A provider call is a parameter of
  `VlmAgent.Step` that returns the reply and the token count.
- **Request construction.** The system prompt text, the message-to-payload
  conversion and the temperature and other call options are left out. They
  are literals and glue to wire formats. The model only records which
  branch carries a zero temperature.
- **Cost accumulation.** `total_cost` is float arithmetic.
- **Output-only code.**
  - The PIL drawing of the cursor on the screenshot and the base64
    re-encoding are left out. A failure there is swallowed after the
    coordinate is set, so the coordinate is what the model keeps.
  - Logging (`print`), `output_callback` HTML, latencies and the uuid ids
    of the blocks are left out, because they are output only.
- **`json.loads` and `is_image_path`.** They stay abstract parameters,
  because their internals are outside this code.
- **A reply that decodes to a non-object.** The agent's parser yields
  objects only. When `json.loads` returns another value, the agent does not
  fall back: `"Box ID" in x` raises `TypeError` for a number, boolean or
  null (`omnitool/gradio/agent/vlm_agent.py:285`). For a list or a string it
  goes on, and `.items()` then raises `AttributeError`
  (`omnitool/gradio/agent/vlm_agent.py:313`). Those crashes are not modelled.
- DebugTool.AnalysisAgreesWithAgent: holds only for a decoder that yields
  objects, because the agent's behaviour on other values is the crash above.
  The debug tool itself is modelled on any JSON value.
- **Numbers.** JSON values carry integers, not floats. Box coordinates are
  exact reals, so float rounding in the centroid is not modelled: only
  truncation toward zero.
- **`repr` of nested values.** String escaping inside it is simplified to
  quoting.
- **`int()`.** It accepts ASCII digits with underscores, a sign and
  surrounding whitespace. Unicode digits and float or bytes arguments are not
  modelled.
- **`extract_data`.** Its `data_type` is fixed to "json", the only value the
  agent and the debug tool pass. The case-insensitive match of "json" covers
  the characters Python folds onto those letters.
- **Message content.** A message without "content", and a `tool_result`
  whose content is a string, are not modelled. The model gives every message
  a content, and every `tool_result` a list of entries.
- **Malformed elements.** A malformed element of `parsed_content_list` is
  not modelled. An element has a well-formed box or none, and a missing box
  is swallowed like any other lookup failure.
- **Unused parameter.** `min_removal_threshold` is never used by the code,
  so it is left out.
- **Debug tool entry points.** The command-line entry point and the
  print-only `test_json_parsing` of the debug tool are left out, because they
  only print.
- **Debug tool input type.** Its non-string inputs are left out: inputs are
  strings.
