# IntenseRP Next bridge core, modelled in Dafny

IntenseRP Next drives a DeepSeek chat in a browser and serves it as an
OpenAI-style chat-completion API. It also ships a self-update toolchain:
release checks, asset selection, a PowerShell apply script and a separate
updater program. This project models the logic of that system that is not
I/O, and proves properties of the model.

| file | module | what it models |
|---|---|---|
| `wrappers.dfy` | `Wrappers` | `Option` and `Result` |
| `strings.dfy` | `Strings` | the Python `str` operations the code uses (`strip`, ASCII `lower`, `split`, `join`, `replace`, `in`, `int()`, `str(int)`) |
| `json.dfy` | `JsonValue` | the values `json.loads` yields, Python truthiness, `str()` of a value, dict access |
| `patch_decoder.dfy` | `PatchDecoder` | `DeepSeekDriver._process_chunk`: the fragment registry, the thinking flag and the delta frames, as a class `Decoder` proved against folds over lines, operations and fragments |
| `prompt_format.dfy` | `PromptFormat` | `_format_messages`: plain and templated prompt text, the divider and the injection |
| `admission.dfy` | `Admission` | the request queue worker of `api.py`, stream relay, non-streaming aggregation, the 503 rejection and the driver's drain loop |
| `semver.dfy` | `Semver` | `_parse_semver`, `compare_versions` (SemVer 2.0.0, section 11) and `check_for_updates` |
| `auto_update.dfy` | `AutoUpdate` | `normalize_tag`, asset scoring and selection, the safe file name, app-root detection and ordering, archive dispatch by suffix |
| `schema.dfy` | `ConfigSchema` | the settings schema, as data |
| `config_manager.dfy` | `ConfigManager` | class `ConfigManager`: default settings, default merge, `get_setting`, `set_setting` |
| `migrator.dfy` | `Migrator` | `SettingsMigrator.migrate` on a mutable settings dict |
| `validators.dfy` | `Validators` | `validate_email` and its regular expression |
| `mini_console.dfy` | `MiniConsole` | classes `LogGroup` and `Console`: capped groups of capped logs with front eviction, and `_lighten_color` |
| `windows_self_updater.dfy` | `WindowsSelfUpdater` | `_ps_escape`, the exe-name check, the preserve list and the script header |
| `updater.dfy` | `Updater` | `_retry`, payload and backup directories, exe selection, argument normalisation, the update steps and the rollback rule |
| `update_dialogs.dfy` | `UpdateDialogs` | `_format_version`, the release-notes link, the update-method availability table |
| `paths.dfy` | `Paths` | POSIX `pathlib` paths as component sequences |
| `config_location.dfy` | `ConfigLocation` | the config-directory presets, `resolve_config_dir`, `infer_preset_from_config_dir` and the guards of `migrate_config_dir` |

## Model

| member | source | states |
|---|---|---|
| PatchDecoder.ResolveIndex | deepseek_driver.py:573-574 | Python list indexing of a registry of length n: defined exactly for -n <= i < n, negative indices counting from the end |
| PatchDecoder.FragStepAllowed | deepseek_driver.py:531-561 | one fragment descriptor never adds search text, nor thinking output when thinking is not sent |
| PatchDecoder.FragFoldAllowed | deepseek_driver.py:531-561 | the same holds for all descriptors of an APPEND |
| PatchDecoder.CloseThinkingAllowed | deepseek_driver.py:509-524 | ending a think block adds `</think>` only when thinking is sent |
| PatchDecoder.IndexedAllowed | deepseek_driver.py:564-586 | a `.../<i>/content` update never adds search text, nor thinking text when thinking is not sent |
| PatchDecoder.OpStepAllowed | deepseek_driver.py:494-590 | every kind of operation keeps the trace allowed |
| PatchDecoder.OpFoldAllowed | deepseek_driver.py:494-590 | the operations of a line keep the trace allowed |
| PatchDecoder.DecodeAllowed | deepseek_driver.py:456-590 | a decoded line, bare text or operations, only produces allowed output |
| PatchDecoder.LineShape | deepseek_driver.py:449-613 | a line's events are allowed; it has a frame exactly when it carries text or a finish reason, the frame's text is the rendered events, and without a frame there are no events |
| PatchDecoder.AddLineInv | deepseek_driver.py:449-613 | adding a line keeps the chunk invariant: allowed trace, frames meaningful, frames' text = rendered trace, at most one frame more |
| PatchDecoder.ChunkFoldInv | deepseek_driver.py:449-613 | the invariant holds after any lines, with at most one frame per line |
| PatchDecoder.ChunkSafety | deepseek_driver.py:438-615 | a chunk gives at most one frame per line, every frame carries text or a finish reason, the frames' text is the rendered trace, no search text ever, and no thinking output when thinking is not sent |
| PatchDecoder.IgnoredLines | deepseek_driver.py:450-456 | a line that is not `data: `, the `[DONE]` marker, or undecodable JSON emits nothing and leaves the state as it was |
| PatchDecoder.FragStepTypes | deepseek_driver.py:532-537 | a dict descriptor appends its `type` (None when missing) to the registry; a non-dict appends nothing |
| PatchDecoder.FragFoldTypes | deepseek_driver.py:531-561 | an APPEND appends the types of exactly the descriptors it handled, in order, and all of them when none raised |
| PatchDecoder.OpStepTypes | deepseek_driver.py:526-537 | only an APPEND operation touches the registry, and it appends the types of a prefix of its descriptors, all of them unless it raised |
| PatchDecoder.OpFoldTypes | deepseek_driver.py:494-590 | the registry of a line only grows |
| PatchDecoder.DecodeTypes | deepseek_driver.py:456-590 | decoding a line never rewrites registered types |
| PatchDecoder.LineTypes | deepseek_driver.py:449-613 | a line keeps every registered type at its index |
| PatchDecoder.ChunkFoldTypes | deepseek_driver.py:449-613 | lines keep every registered type at its index |
| PatchDecoder.ChunkTypes | deepseek_driver.py:438-615 | a chunk keeps every registered type at its index |
| PatchDecoder.FinishedOp | deepseek_driver.py:517-524 | `status` = FINISHED sets the finish reason, ends thinking, adds `</think>` only if thinking was active and is sent, and changes nothing else |
| PatchDecoder.ResponseCloses | deepseek_driver.py:547-561 | a RESPONSE descriptor ends an open think block, with `</think>` when sent, before its own text |
| PatchDecoder.IndexedUpdateLaw | deepseek_driver.py:564-586 | a content update adds text iff the index is an integer within the registry (negative from the end) and the type there is shown; the text is `str(v)`; state, finish and stop are unchanged |
| PatchDecoder.OpFoldConcat | deepseek_driver.py:494-590 | handling two lists of operations in a row is handling their concatenation |
| PatchDecoder.FilterStopsLine | deepseek_driver.py:504-514 | with anti-censorship on, a CONTENT_FILTER status finishes the line, ends thinking (with `</think>` if open and sent), keeps the earlier operations' text and skips the remaining operations |
| PatchDecoder.Decoder.constructor | deepseek_driver.py:139-140 | a new decoder has an empty registry and no open think block |
| PatchDecoder.Decoder.Reset | deepseek_driver.py:138-140 | every generation starts with an empty registry and thinking off |
| PatchDecoder.Decoder.ProcessChunk | deepseek_driver.py:438-615 | the frames put on the queue and the new state are those of the chunk specification |
| PatchDecoder.Decoder.ProcessLine | deepseek_driver.py:450-613 | one line: its frame, the new state and whether it raised are those of the line specification |
| PatchDecoder.Decoder.DecodeLine | deepseek_driver.py:456-590 | a decoded line: the state, finish reason, text and abort are those of the decode specification |
| PatchDecoder.Decoder.ApplyOps | deepseek_driver.py:494-590 | the operations of a line in order until one raises or the content filter stops the line |
| PatchDecoder.Decoder.EndThinking | deepseek_driver.py:509-524 | ends an open think block, adding `</think>` when sent |
| PatchDecoder.Decoder.ApplyOp | deepseek_driver.py:495-590 | one operation, as the operation specification says |
| PatchDecoder.Decoder.IndexedText | deepseek_driver.py:564-586 | a `.../<i>/content` update adds `str(v)` exactly when `i` is an integer that indexes the registry (negative from the end) and the fragment is neither SEARCH nor unsent THINK; otherwise the content is unchanged |
| PatchDecoder.Decoder.EmitIndexed | deepseek_driver.py:576-582 | a THINK fragment's text is added only when sent, a SEARCH one's never, any other's always |
| PatchDecoder.Decoder.ApplyFragments | deepseek_driver.py:530-561 | the descriptors of an APPEND in order, until one raises |
| PatchDecoder.Decoder.ApplyFragment | deepseek_driver.py:532-561 | one descriptor: register, open or close thinking, initial text |
| PatchDecoder.Decoder.RegisterType | deepseek_driver.py:533-551 | the type is appended to the registry; THINK opens thinking (with `<think>` when sent); RESPONSE closes an open one |
| PatchDecoder.Decoder.InitialText | deepseek_driver.py:554-561 | a descriptor's own `content` is added unless it is SEARCH or unsent THINK; a non-string content that would be added raises |
| Admission.Drain | deepseek_driver.py:262-271 | the drain loop yields every frame until the end marker; an error item is yielded as `{"error": ...}` and ends it |
| Admission.DrainRoute | deepseek_driver.py:262-271 | for a route output of frames, an optional failure and the end marker, the drain yields exactly the frames, then the error frame when there was a failure |
| Admission.ItemTerminated | api.py:116-140 | a served request's queue holds the driver's frames in order, then one error frame when it failed, then exactly one `None`, last |
| Admission.Api.constructor | api.py:24-28 | a new API has empty request queues and no put yet |
| Admission.Api.Submit | api.py:32-40 | when the driver is not running the request is refused with 503 and nothing is enqueued; otherwise it gets a fresh response queue at the end of the request queue |
| Admission.Api.Put | api.py:126-140 | one put appends one item to one response queue and logs it |
| Admission.Api.Worker | api.py:111-143 | the worker serves every pending request in dequeue order, one at a time, and its puts follow that order |
| Admission.Api.ServeOne | api.py:116-140 | one request: the driver's frames, the error frame on failure, then `None`, all on its own queue |
| Admission.PutLogOrdered | api.py:111-140 | with increasing tickets the puts of one request all come before those of the next, and every put goes to a request that was pending |
| Admission.ServedQueue | api.py:116-140 | each served request's queue gets its own output appended, whatever the other requests do |
| Admission.ServedUntouched | api.py:111-140 | a queue no pending request owns is left as it was |
| Admission.StreamGenerator | api.py:90-96 | the streamed lines are the stream specification of the queue |
| Admission.StreamOfItem | api.py:90-140 | a served request streams its frames in order, the error frame if any, then `[DONE]` exactly once, last |
| Admission.StreamPrefix | api.py:90-96 | frames before the first `None` are relayed in order, followed by one `[DONE]` |
| Admission.Aggregate | api.py:46-80 | the non-streaming completion is the aggregation of the queue up to `None` |
| Admission.ErrorFrameIgnored | api.py:58-66 | an error frame (no `choices`) leaves the aggregation as it was |
| Admission.DecoderFrameAggregated | api.py:58-64 | a decoder frame adds its text and sets the finish reason to "stop" or null |
| Admission.ChoiceStep | api.py:60-64 | a frame whose first choice has a dict delta adds the delta's string content and takes the choice's finish reason, even null |
| Admission.NonStreamingOfFrames | api.py:46-80 | a non-streaming request whose driver yields decoder frames gets their text concatenated in order and "stop" as finish reason, also when the driver then fails |
| PromptFormat.ResolveNames | deepseek_driver.py:344-381 | a plain string is never scanned, so it keeps the names "User" and "Character", and so does a message list when all three scans are off |
| PromptFormat.Fill | deepseek_driver.py:413-415 | a template without a brace is used as it is, and the bare `{{content}}` template becomes the content whatever it holds |
| PromptFormat.FormatMessages | deepseek_driver.py:326-436 | with formatting on, the call raises `AttributeError` exactly when the divider is not a string, or the template is not one and some part is filled; with formatting off a plain string is returned unchanged |
| PromptFormat.UnformattedText | deepseek_driver.py:333-342 | with formatting off a plain string is returned unchanged |
| PromptFormat.UnformattedLines | deepseek_driver.py:333-341 | with formatting off a message list becomes one `role: content` line per message, joined by newlines |
| PromptFormat.FillWithoutPlaceholders | deepseek_driver.py:413-415 | a template without placeholders is used as it is |
| PromptFormat.FillContentSlot | deepseek_driver.py:413-415 | in a template `before{{content}}after` with brace-free fixed text the slot becomes the message content, whatever the name, role and content hold |
| PromptFormat.FillNameSlot | deepseek_driver.py:413-415 | in a template `before{{name}}after` with brace-free fixed text and name the slot becomes the name |
| PromptFormat.FillOrder | deepseek_driver.py:413-415 | the slots are filled name, role, content in turn: a name holding `{{content}}` gets the content, while content holding `{{name}}` is left as it is |
| PromptFormat.DividerUnchanged | deepseek_driver.py:385-387 | a divider without a literal `\n` is used as it is |
| PromptFormat.MissingSettingRaises | deepseek_driver.py:384-424 | with formatting on, a divider that is not a string raises `AttributeError` for every input, a template that is not a string raises once a part is filled, and an empty message list with a string divider gives the empty text |
| PromptFormat.FormattedSingle | deepseek_driver.py:384-424 | with formatting on and no injection a plain string fills the template as the user, with role "User", and raises `AttributeError` when the template or the divider is not a string |
| PromptFormat.FormattedMessages | deepseek_driver.py:384-424 | with formatting on and no injection the call raises exactly when the divider is not a string or the template is not one while there are messages; otherwise there is one filled template per message, each with its display name and role (System, User or Character) and its content, joined by the unescaped divider |
| PromptFormat.ContentTemplateMessages | deepseek_driver.py:384-424 | with the template `before{{content}}after` and a divider without `\n`, the prompt is each message's content between the fixed text, joined by the divider, whatever the names |
| PromptFormat.Injection | deepseek_driver.py:426-434 | non-empty injection text goes before the body ("Before") or after it, separated by a newline, and the body is kept whole |
| PromptFormat.ScanSystemSnoc | deepseek_driver.py:365-381 | the system-message scan handles messages in order, a later match overriding an earlier one |
| PromptFormat.LastClassicMatchWins | deepseek_driver.py:377-381 | with the classic scan on, a last system message that matches sets the character and user names from its two groups |
| PromptFormat.DefaultNamesKept | deepseek_driver.py:344-381 | with message objects, IR2 and classic scans all off, the names stay "User" and "Character" |
| Semver.Cut | utils/update_checker.py:17-20 | splitting at the first occurrence of a separator: without it the whole text, with it a prefix free of the separator, the separator and the rest |
| Semver.Dotted | utils/update_checker.py:19-20 | a dotted identifier list matched by the pattern is non-empty and every identifier is `[0-9A-Za-z-]+` |
| Semver.Compare | utils/update_checker.py:47-89 | `compare_versions` succeeds exactly when both strings parse, returns only -1, 0 or 1, and raises the `ValueError` of `a` before that of `b` |
| Semver.ReadLocalVersion | utils/update_checker.py:96-104 | the stripped file text, `unknown` when the read raises `OSError`, and a raised error exactly when the text does not decode |
| Semver.CheckForUpdates | utils/update_checker.py:117-150 | the check raises exactly when the local version file does not decode, since it is read outside any handler; otherwise the local version is the stripped file text or `unknown`, a failed fetch keeps its error and no remote version; the result has no error exactly when the stripped remote version and the local one compare, and an update is available exactly when the remote one compares greater |
| Semver.CompareRange | utils/update_checker.py:47-55 | the comparison of parsed versions is always -1, 0 or 1 |
| Semver.IdsRange | utils/update_checker.py:69-89 | the comparison of prerelease identifier lists is always -1, 0 or 1 |
| Semver.CompareIdAntisymmetric | utils/update_checker.py:70-85 | swapping two prerelease identifiers negates their comparison |
| Semver.IdsAntisymmetric | utils/update_checker.py:69-89 | swapping two identifier lists negates their comparison |
| Semver.IdsReflexive | utils/update_checker.py:69-89 | an identifier list compares equal to itself |
| Semver.CompareIdTransitive | utils/update_checker.py:70-85 | the identifier order is transitive, strictly so when one step is strict |
| Semver.IdsTransitive | utils/update_checker.py:69-89 | the identifier-list order is transitive, strictly so when one step is strict |
| Semver.CompareReflexive | utils/update_checker.py:59-63 | every version compares equal to itself |
| Semver.CompareAntisymmetric | utils/update_checker.py:59-89 | swapping the versions negates the comparison |
| Semver.CompareTransitive | utils/update_checker.py:59-89 | the version order is transitive, strictly so when one step is strict, so it is a total preorder |
| Semver.CompareStrings | utils/update_checker.py:47-89 | on parseable strings `compare_versions(a, a)` is 0 and `compare_versions(a, b)` is minus `compare_versions(b, a)` |
| Semver.ReleaseOutranksPrerelease | utils/update_checker.py:62-67 | with equal cores a release ranks above any prerelease, in both argument orders |
| Semver.CoreDecides | utils/update_checker.py:59-60 | versions with different cores are ordered by their cores alone, prerelease ignored |
| Semver.PrereleaseIdentifiers | utils/update_checker.py:70-85 | numeric identifiers compare by value, a numeric identifier ranks below an alphanumeric one, and two different alphanumeric ones compare by code point |
| Semver.ShorterPrefixRanksLower | utils/update_checker.py:87-89 | a prerelease list that is a proper prefix of another ranks lower |
| Semver.NumberOfNat | utils/update_checker.py:16 | the decimal text of a number is a core number without leading zero and reads back as that number |
| Semver.CutAbsent | utils/update_checker.py:17-20 | cutting at an absent separator leaves the text whole |
| Semver.CutAt | utils/update_checker.py:17-20 | cutting at the first separator gives back the text before and after it |
| Semver.DottedOfValid | utils/update_checker.py:19 | a joined list of valid identifiers reads back as that list |
| Semver.CoreOfRender | utils/update_checker.py:16-18 | the core text `major.minor.patch` parses back to the three numbers and holds only digits and dots |
| Semver.MainOfRender | utils/update_checker.py:16-19 | a valid version's canonical text parses back to it as core and prerelease |
| Semver.StripPadded | utils/update_checker.py:15 | whitespace around a text that neither starts nor ends with a blank is stripped off exactly |
| Semver.ParseRender | utils/update_checker.py:14-44 | every valid version's canonical text parses back to it, also with surrounding whitespace, a leading `v` and build metadata, which is ignored |
| Semver.ParsePaddedMain | utils/update_checker.py:14-22 | padding, a `v` and build metadata do not change what the text before them parses to |
| Semver.PlainCore | utils/update_checker.py:16-18 | a text of digits and dots without prerelease parses exactly as its core does, with no prerelease |
| Semver.ShortCoreDefaults | utils/update_checker.py:39-40 | a lone major number parses with minor and patch 0 and compares equal to `major.0.0` |
| Semver.SingleNumber | utils/update_checker.py:16-40 | a core number alone parses to that number with minor and patch 0 |
| Semver.LeadingZeroRejected | utils/update_checker.py:16 | a major number with a leading zero is refused |
| Semver.LetterStartRejected | utils/update_checker.py:15-16 | a text starting with a letter other than `v` is refused |
| Semver.UnknownLocalVersion | utils/update_checker.py:96-150 | when reading the version file raises `OSError` the check completes, the local version is `unknown`, no update is offered and an error is reported |
| AutoUpdate.CurrentPlatform | utils/auto_update.py:41-47 | the platform is Windows exactly for a `sys.platform` starting with `win`, Linux exactly for one starting with `linux` otherwise, and anything else is the unsupported-platform error |
| AutoUpdate.NormalizeTag | utils/auto_update.py:50-58 | a successful tag starts with `v` and has more after it; a blank version is the missing-tag error |
| AutoUpdate.NormalizeTagShape | utils/auto_update.py:54-58 | what follows the `v` of a tag is stripped, not empty and not `unknown` in any case |
| AutoUpdate.NormalizeTagIdempotent | utils/auto_update.py:50-58 | normalising a tag again gives the same tag |
| AutoUpdate.TagIsNormal | utils/auto_update.py:50-58 | a `v` followed by a stripped, non-empty, non-`unknown` text is its own tag |
| AutoUpdate.NormalizeOfTag | utils/auto_update.py:50-58 | prefixing `v` to a stripped, non-empty, non-`unknown` text gives a tag that normalises to itself |
| AutoUpdate.UnknownValueRefused | utils/auto_update.py:56-57 | a stripped `unknown` with no leading `v` is the invalid-tag error |
| AutoUpdate.ScoreBounds | utils/auto_update.py:83-112 | a score lies between 0 and 170 on Windows and between 0 and 160 on Linux |
| AutoUpdate.ScoreIgnoresCase | utils/auto_update.py:85 | the score of a name does not depend on its letter case |
| AutoUpdate.WindowsThreshold | utils/auto_update.py:89-142 | on Windows a name reaches the minimum score 50 exactly when it ends in `.zip` or names `win` together with `win32` or an architecture; without `.zip`, `win32` with an architecture scores exactly 70 |
| AutoUpdate.LinuxThreshold | utils/auto_update.py:92-142 | on Linux a name reaches 50 exactly when it ends in `.tar.gz`, `.tgz` or `.zip`, or names `linux` and an architecture |
| AutoUpdate.AssetRank | utils/auto_update.py:128-136 | an asset is skipped exactly when it is not a dict with a name and a download URL; a candidate whose size does not convert to an integer makes the selection raise; every other rank has a score of at least 0 |
| AutoUpdate.Ranks | utils/auto_update.py:128-136 | there is one rank per asset, in order |
| AutoUpdate.RankAt | utils/auto_update.py:128-136 | the rank at a position is the rank of the asset at that position |
| AutoUpdate.SelectPlatformAsset | utils/auto_update.py:115-145 | the loop over the assets returns what the selection function defines |
| AutoUpdate.PickStepInv | utils/auto_update.py:137-140 | one step of the loop keeps the best-so-far invariant, and fails exactly on an unconvertible size |
| AutoUpdate.PickFromInv | utils/auto_update.py:128-141 | the rest of the loop fails exactly when an unconvertible size remains, and then with the conversion error; otherwise it ends with the invariant over all ranks |
| AutoUpdate.FirstBestUnique | utils/auto_update.py:137 | at most one asset is the first one with the highest score and, among those, the largest size |
| AutoUpdate.PickOutcome | utils/auto_update.py:124-141 | the loop fails exactly when some candidate size is unconvertible; it has no best exactly when every asset is skipped; otherwise its best is the first asset of highest score and then largest size, with that score |
| AutoUpdate.SelectionIsFirstBest | utils/auto_update.py:120-145 | an empty list raises `No release assets found.`; an unconvertible size raises; only skipped assets raise the not-found error; otherwise the first best asset is returned when it scores at least 50, and the not-found error is raised when it does not |
| AutoUpdate.NoAssetList | utils/auto_update.py:120-122 | a release whose `assets` is not a list raises `No release assets found.` |
| AutoUpdate.FirstBestExists | utils/auto_update.py:128-141 | when some asset is a candidate and no size fails to convert, a first best asset exists |
| AutoUpdate.ReplaceRuns | utils/auto_update.py:309 | the rewritten name is no longer than the original and uses only `[A-Za-z0-9._-]` |
| AutoUpdate.ReplaceRunsSafe | utils/auto_update.py:309 | a name made only of allowed characters is kept as it is |
| AutoUpdate.RunCollapses | utils/auto_update.py:309 | a maximal run of disallowed characters between allowed text becomes exactly one `_` |
| AutoUpdate.SafeNameFixed | utils/auto_update.py:309 | the rewrite leaves a name unchanged exactly when all its characters are allowed, and rewriting twice is rewriting once |
| AutoUpdate.ChooseExtractor | utils/auto_update.py:223-238 | an existing archive is unzipped exactly when its lower-cased name ends in `.zip`, and untarred exactly when it ends in `.tar.gz` or `.tgz` otherwise; everything else is an error |
| AutoUpdate.ArchiveAssetsExtract | utils/auto_update.py:223-238 | every archive suffix the scoring rewards can be extracted |
| AutoUpdate.NoExpectedName | utils/auto_update.py:262-264 | without an expected executable name no folder looks like the app root |
| AutoUpdate.Candidates | utils/auto_update.py:273-282 | the candidates are walked folders that look like the app root, and there are none exactly when no walked folder does |
| AutoUpdate.CandidatesStep | utils/auto_update.py:274-277 | walking one more folder appends it to the candidates exactly when it looks like the app root |
| AutoUpdate.KeyLessOrder | utils/auto_update.py:285 | the sort key order (path depth, then lower-cased text) is a strict weak order |
| AutoUpdate.NewMinimum | utils/auto_update.py:285-286 | a folder strictly below the first minimum so far is the new first minimum |
| AutoUpdate.FirstMinimalIndex | utils/auto_update.py:285-286 | the index found is where a stable sort puts its first element: nothing ranks below it and everything before it ranks above |
| AutoUpdate.FindExtractedAppRoot | utils/auto_update.py:268-286 | a missing directory is an error; otherwise the call fails exactly when there are no candidates, and returns the shallowest candidate, the first one on a tie |
| ConfigManager.InitFields | config/manager.py:57-58 | filling a category's fields keeps every category a dict and the category present |
| ConfigManager.InitCats | config/manager.py:54-58 | filling all categories keeps every category a dict |
| ConfigManager.FieldDefaults | config/manager.py:57-58 | the first `n` fields of a category paired with their defaults, in schema order |
| ConfigManager.DefaultTree | config/manager.py:52-58 | the default settings: one dict per category, in schema order, holding every field with its default |
| ConfigManager.InitFieldsExact | config/manager.py:57-58 | on a fresh category the field loop yields exactly the category's field defaults |
| ConfigManager.InitCatsExact | config/manager.py:54-58 | from an empty dict the category loop yields exactly the default tree |
| ConfigManager.TreeDicts | config/manager.py:54-56 | the default tree holds a dict for exactly the schema's category keys |
| ConfigManager.DefaultsExact | config/manager.py:52-58 | with distinct keys, `_init_default_settings` builds exactly one dict per category with every field's default |
| ConfigManager.MergeFieldPresent | config/manager.py:68 | a field already present is left as it is |
| ConfigManager.MergeFieldAdded | config/manager.py:68-70 | a missing field is added with its default and marks the settings updated |
| ConfigManager.MergeFieldRaises | config/manager.py:68-69 | a category value on which the membership test or the assignment raises stops the merge with the settings as they were |
| ConfigManager.PreservedRefl | config/manager.py:61-72 | the keeps-what-was-there relation is reflexive |
| ConfigManager.PreservedTrans | config/manager.py:61-72 | the keeps-what-was-there relation is transitive |
| ConfigManager.CoveredKept | config/manager.py:61-72 | a field present stays present under any later merge step |
| ConfigManager.AddCategory | config/manager.py:64-66 | adding a missing category keeps everything and adds one entry |
| ConfigManager.AddField | config/manager.py:68-70 | adding a missing field keeps everything, adds one entry and makes the field present |
| ConfigManager.MergeFieldsPreserved | config/manager.py:67-70 | the field loop never drops or changes an existing setting |
| ConfigManager.MergeFieldsGrows | config/manager.py:66-70 | the field loop either changes nothing or sets `updated` and adds entries |
| ConfigManager.MergeFieldsCovers | config/manager.py:67-70 | unless it raised, the field loop leaves every remaining field of the category present |
| ConfigManager.MergeCatStep | config/manager.py:63-70 | one category step creates the category as an empty dict when missing, marks that as an update, then runs the field loop |
| ConfigManager.MergeCatsPreserved | config/manager.py:63-70 | the category loop never drops or changes an existing setting |
| ConfigManager.MergeCatsGrows | config/manager.py:63-70 | the category loop either changes nothing or sets `updated` and adds entries |
| ConfigManager.MergeCatsCovers | config/manager.py:63-70 | unless it raised, every field of every remaining category is present afterwards |
| ConfigManager.MergeComplete | config/manager.py:61-72 | `_merge_defaults` keeps every existing setting, reports `updated` exactly when it changed something, and unless it raised leaves every schema field present |
| ConfigManager.MergeOthers | config/manager.py:63-70 | keys that are not schema categories are left untouched by the category loop |
| ConfigManager.MergeFieldsOthers | config/manager.py:67-70 | the field loop of one category touches no other key |
| ConfigManager.GetSetting | config/manager.py:84-85 | a missing category reads as `None`; a category that is a dict reads the field's value or `None`; any other stored value raises |
| ConfigManager.SetSetting | config/manager.py:87-90 | setting raises exactly when the category holds a value that is not a dict |
| ConfigManager.GetAfterSet | config/manager.py:84-90 | after a set, the field reads back as the value set, every other field reads as before, and every other category is unchanged |
| ConfigManager.UnknownCategoryReadsNone | config/manager.py:52-85 | on default settings a category outside the schema reads as `None` |
| ConfigManager.ConfigManager.constructor | config/manager.py:9-13 | a manager starts with its schema, empty settings and nothing written |
| ConfigManager.ConfigManager.SaveSettings | config/manager.py:74-80 | the file receives the current settings, which do not change |
| ConfigManager.ConfigManager.InitDefaultSettings | config/manager.py:52-59 | the settings become the defaults, and they are saved |
| ConfigManager.ConfigManager.FillDefaults | config/manager.py:57-58 | the field loop of one category gives what the field-fill function defines, and nothing is written |
| ConfigManager.ConfigManager.MergeDefaults | config/manager.py:61-72 | the loop over the schema gives what the merge function defines, and the settings are saved exactly when the merge updated something without raising |
| ConfigManager.ConfigManager.MergeCategory | config/manager.py:67-70 | the field loop of one category gives what the field-merge function defines, and nothing is written |
| ConfigManager.ConfigManager.LoadSettings | config/manager.py:33-50 | a missing or unreadable file or a failed merge gives the defaults, saved; a readable dict is merged and saved when the merge updated it |
| ConfigManager.ConfigManager.Setting | config/manager.py:84-85 | `get_setting` answers `None` for a missing category, raises exactly when the category holds a non-dict, and otherwise answers the field's value or `None` when the field is missing |
| ConfigManager.ConfigManager.SetSettingValue | config/manager.py:87-90 | `set_setting` raises exactly when the category holds a non-dict, and otherwise leaves the settings the set function defines, without writing them; afterwards `get_setting` of the same category and field reads the value back, and every other category and field reads as before |
| ConfigManager.SchemaShape | config/schema.py:25-169 | the shipped schema has distinct category keys, distinct field keys in each category, and a first category with a field |
| Migrator.NewPreset | config/migrator.py:17-23 | `Classic`, `XML-Like` and `Divided` map to their `- Name` variants and every other value is kept |
| Migrator.MigratePreset | config/migrator.py:12-23 | the preset step raises exactly when `formatting` is present and the membership test raises on it, or it is not a dict yet reports the key as present |
| Migrator.SettingsDict.constructor | config/migrator.py:5 | a settings dict holds the given members |
| Migrator.Migrate | config/migrator.py:5-36 | `migrate` returns the same dict it was given, raises exactly when the migration is undefined, and otherwise leaves the migrated settings in it |
| Migrator.PresetMapped | config/migrator.py:12-23 | with a dict under `formatting`, the preset is mapped and every other formatting key stays |
| Migrator.MoveKeepsOthers | config/migrator.py:26-31 | moving the console flag touches no top-level key other than `system_settings` and `console_settings` |
| Migrator.OtherKeysUnchanged | config/migrator.py:5-36 | the migration touches no top-level key other than `formatting`, `system_settings` and `console_settings` |
| Migrator.ConsoleFlagMoved | config/migrator.py:26-31 | `enable_console` leaves `system_settings`; it is copied into `console_settings`, which is created when missing, unless that already has the flag or is not a dict; everything else in both dicts stays |
| Migrator.NoFlagNoMove | config/migrator.py:26-27 | without the flag in a dict `system_settings` nothing moves |
| Migrator.MoveSystemAfter | config/migrator.py:27-28 | after the move `system_settings` is the old dict without the flag |
| Migrator.FlagGone | config/migrator.py:26-31 | after the move no `enable_console` is left in `system_settings` |
| Migrator.FlagDroppedBesideNonDict | config/migrator.py:28-31 | when `console_settings` is not a dict the flag is popped and lost |
| Migrator.MigrateIdempotent | config/migrator.py:5-36 | migrating migrated settings changes nothing more |
| Migrator.PresetSettled | config/migrator.py:12-23 | the preset step is idempotent and leaves `system_settings` alone |
| Migrator.RewrittenSettled | config/migrator.py:12-23 | a preset that was rewritten is not rewritten again |
| Migrator.PresetKeepsSystem | config/migrator.py:12-23 | the preset step leaves `system_settings` alone |
| Migrator.PresetStable | config/migrator.py:12-31 | moving the console flag does not make the preset step do anything |
| Migrator.SameFormattingSettled | config/migrator.py:12-23 | the preset step depends only on `formatting` |
| Migrator.ConsoleSettled | config/migrator.py:26-31 | moving the console flag twice is moving it once |
| Validators.ValidateEmail | config/validators.py:3-14 | an empty value is accepted, and a refusal is always `Invalid email address format.` |
| Validators.MatchesIsPattern | config/validators.py:12-13 | the matcher accepts exactly the texts the pattern `[\w.-]+@[\w.-]+\.\w+` describes in full |
| Validators.SplitIsFirstAndLast | config/validators.py:12 | in a matching text the `@` is the only one and the dot before the final word is the last dot |
| Validators.ValidateEmailMeans | config/validators.py:8-14 | a value is accepted exactly when it is empty, matches the pattern, or matches it followed by one newline, as `$` allows |
| Validators.AcceptedShape | config/validators.py:12-13 | an accepted non-empty value splits at its one `@` and its last dot into the three pattern parts |
| Validators.Refused | config/validators.py:12-14 | a non-empty value without `@`, without a dot, or starting with `@` is refused |
| MiniConsole.Evicted | ui/mini_console.py:313-316 | the eviction loop keeps all groups when there are fewer than 35, and otherwise exactly the newest 34 |
| MiniConsole.Opened | ui/mini_console.py:305-322 | after opening a group where one is needed there is always a last group to add to |
| MiniConsole.AddToLast | ui/mini_console.py:325 | only the last group receives the message; the others stay as they were |
| MiniConsole.LogGroup.constructor | ui/mini_console.py:36-40 | a new group has its level and no messages |
| MiniConsole.LogGroup.IsFull | ui/mini_console.py:169-171 | a group is full exactly when it holds 50 messages or more |
| MiniConsole.LogGroup.AddLog | ui/mini_console.py:144-167 | a message is added, at the end, exactly when the group is not full, and the result says whether it was |
| MiniConsole.Views | ui/mini_console.py:181 | the groups as values, one per widget, in order |
| MiniConsole.ViewsDrop | ui/mini_console.py:314 | dropping the oldest widget drops the oldest group |
| MiniConsole.EvictedViews | ui/mini_console.py:313-316 | the kept widgets show exactly the kept groups, and distinct widgets stay distinct |
| MiniConsole.KeepNewest | ui/mini_console.py:313-314 | `while len(groups) >= 35: groups.pop(0)` leaves all groups when there are fewer than 35, and otherwise the newest 34 |
| MiniConsole.ViewsFramed | ui/mini_console.py:181 | the group values are determined by the widgets' own messages |
| MiniConsole.Console.constructor | ui/mini_console.py:179-183 | a new console has no groups, no last level and logging enabled |
| MiniConsole.Console.AddLog | ui/mini_console.py:293-328 | `add_log` changes the console as the state function defines, and keeps the console's invariant |
| MiniConsole.Console.Accept | ui/mini_console.py:302-325 | past the filter, the groups become those opened where a new one is needed with the message added to the last; `last_level` is updated exactly when a group was opened |
| MiniConsole.Console.OpenGroup | ui/mini_console.py:319-322 | opening appends one fresh empty group of the level and sets `last_level` |
| MiniConsole.Console.EvictOldest | ui/mini_console.py:313-316 | the eviction loop removes the oldest widgets only, leaving what the eviction function defines |
| MiniConsole.Console.AddToLastGroup | ui/mini_console.py:325 | the message goes to the last widget, nothing else changes |
| MiniConsole.Console.Clear | ui/mini_console.py:335-341 | clearing removes every group and resets `last_level` |
| MiniConsole.Console.SetMainLoggingEnabled | ui/mini_console.py:343-354 | the flag is set; disabling clears the logs; setting the same value changes nothing |
| MiniConsole.GroupAddCapped | ui/mini_console.py:144-152 | a group never exceeds 50 messages; a full group refuses a message, and any other appends it |
| MiniConsole.IgnoredLogs | ui/mini_console.py:295-300 | with logging disabled, or for a DEBUG message, nothing changes |
| MiniConsole.AcceptGroups | ui/mini_console.py:305-325 | a message needing a new group lands alone in a new group after the eviction; otherwise it is added to the last group and `last_level` stays |
| MiniConsole.AddLogKeepsInv | ui/mini_console.py:293-328 | `add_log` keeps at most 35 groups, each with 1 to 50 messages, and `last_level` the level of the last group |
| MiniConsole.AcceptKeepsInv | ui/mini_console.py:302-325 | a message that passed the filter keeps the same invariant |
| MiniConsole.AddLogPlacement | ui/mini_console.py:302-325 | a shown message ends up last in the last group, which has its level; a new group holds just it, and otherwise the earlier groups stay |
| MiniConsole.AcceptPlacement | ui/mini_console.py:302-325 | the same placement for a message past the filter |
| MiniConsole.FlattenAppend | ui/mini_console.py:181 | the shown messages of two runs of groups are those of the first followed by those of the second |
| MiniConsole.AddLogOrder | ui/mini_console.py:293-328 | the shown messages are always the newest ones of the earlier messages followed by the new one, and all of them when nothing was evicted |
| MiniConsole.AcceptOrder | ui/mini_console.py:302-325 | the same order for a message past the filter |
| MiniConsole.OrderNewGroup | ui/mini_console.py:311-325 | opening a new group keeps a suffix of the messages, followed by the new one |
| MiniConsole.OrderSameGroup | ui/mini_console.py:325 | adding to a group that is not full appends the message to what is shown |
| MiniConsole.ClearResets | ui/mini_console.py:335-341 | after clearing there are no groups and no last level, the flag is kept, and the invariant holds |
| MiniConsole.SetEnabledEffect | ui/mini_console.py:343-354 | the flag becomes the value given; the same value changes nothing; disabling an enabled console clears it; enabling keeps the groups |
| MiniConsole.HexValue | ui/mini_console.py:112-114 | a hexadecimal digit has a value below 16 |
| MiniConsole.ParseHex | ui/mini_console.py:112-114 | `int(s, 16)` of a non-empty string of hexadecimal digits is its value |
| MiniConsole.HexUnstripped | ui/mini_console.py:112-114 | a string of hexadecimal digits has no blanks and no sign for `int()` to skip |
| MiniConsole.ToHex | ui/mini_console.py:115 | a hexadecimal rendering is never empty |
| MiniConsole.LStripHash | ui/mini_console.py:111 | `lstrip('#')` removes a prefix and leaves no leading `#` |
| MiniConsole.Format02xByte | ui/mini_console.py:115 | `format(n, '02x')` of a byte is two lowercase hexadecimal digits that read back as the byte |
| MiniConsole.Channel | ui/mini_console.py:112-114 | a channel of a `#rrggbb` colour is below 256 |
| MiniConsole.TwoDigits | ui/mini_console.py:112-114 | two hexadecimal digits read as a value below 256 |
| MiniConsole.ChannelParsed | ui/mini_console.py:112-114 | the slices `[0:2]`, `[2:4]` and `[4:6]` of a `#rrggbb` colour parse as its channels |
| MiniConsole.Assemble | ui/mini_console.py:115 | three two-digit lowercase parts make a `#rrggbb` colour whose channels are the parts |
| MiniConsole.LightenColorChannels | ui/mini_console.py:109-115 | lightening a `#rrggbb` colour by a non-negative amount gives a lowercase `#rrggbb` colour whose channels are the old ones plus the amount, capped at 255 |
| MiniConsole.LightenColorOf | ui/mini_console.py:109-115 | lightening a `#rrggbb` colour by any amount succeeds and raises each channel by the amount, capped at 255 |
| WindowsSelfUpdater.ReplaceSingle | utils/windows_self_updater.py:161 | `str.replace` of a one-character string replaces each occurrence of that character |
| WindowsSelfUpdater.ReplaceCharAppend | utils/windows_self_updater.py:161 | replacing a character in a concatenation replaces it in each part |
| WindowsSelfUpdater.TwoPasses | utils/windows_self_updater.py:161 | doubling backticks and then escaping quotes is the same as escaping each character once |
| WindowsSelfUpdater.PsEscapeEach | utils/windows_self_updater.py:159-161 | `_ps_escape` escapes every backtick and every `"` with one backtick, character by character |
| WindowsSelfUpdater.EscapeEachLength | utils/windows_self_updater.py:161 | the escape adds one character per backtick and per `"` |
| WindowsSelfUpdater.PsEscapeLength | utils/windows_self_updater.py:159-161 | `_ps_escape` lengthens a value by its number of backticks and `"` |
| WindowsSelfUpdater.UnescapeEach | utils/windows_self_updater.py:161 | dropping each escaping backtick gives the value back, and the escape leaves no `"` bare |
| WindowsSelfUpdater.UnescapeRoundTrip | utils/windows_self_updater.py:159-161 | `_ps_escape` is undone by reading each backtick as escaping the next character, and leaves no `"` bare |
| WindowsSelfUpdater.ReadEach | utils/windows_self_updater.py:161 | a value without `$` and typographic quotes escaped character by character reads back as itself in a PowerShell double-quoted string |
| WindowsSelfUpdater.PsEscapeReadsBack | utils/windows_self_updater.py:159-161 | with no `$` and no typographic quote in the value, PowerShell reads the `_ps_escape`d literal back as the value |
| WindowsSelfUpdater.PsEscapeExpands | utils/windows_self_updater.py:159-161 | as written, `_ps_escape` leaves `$x` for PowerShell to expand and lets a typographic quote end the literal |
| WindowsSelfUpdater.PsEscapeLiteralReadsBack | utils/windows_self_updater.py:159-161 | escaping backticks, dollars and every PowerShell quote character gives a literal PowerShell reads back as the value, for every value |
| WindowsSelfUpdater.PsEscapeLiteralAgrees | utils/windows_self_updater.py:159-161 | where the value holds no `$` and no typographic quote, the corrected escape and `_ps_escape` agree |
| WindowsSelfUpdater.CheckExeName | utils/windows_self_updater.py:33-34 | an exe name is accepted exactly when its lower-cased form ends in `.exe`, and refused with `Unexpected exe name: <name>` |
| WindowsSelfUpdater.ExeNameCase | utils/windows_self_updater.py:33 | the exe-name check does not depend on letter case |
| WindowsSelfUpdater.PreservePaths | utils/windows_self_updater.py:20-43 | the preserve list is the plan's when it names any, and `logs`, `config_data`, `config_dir.txt` otherwise, so never empty |
| WindowsSelfUpdater.QuoteAll | utils/windows_self_updater.py:44 | each preserved path is put between single quotes, in order |
| WindowsSelfUpdater.QuotedHead | utils/windows_self_updater.py:44 | a single-quoted item without a single quote inside ends at its closing quote |
| WindowsSelfUpdater.ParseItemsLast | utils/windows_self_updater.py:44 | one quoted item reads back as that item |
| WindowsSelfUpdater.ParseItemsStep | utils/windows_self_updater.py:44 | a quoted item followed by `, ` and more reads back as the item followed by the rest |
| WindowsSelfUpdater.ItemsRoundTrip | utils/windows_self_updater.py:44 | a non-empty list of paths without single quotes, quoted and joined with `, `, reads back as the list |
| WindowsSelfUpdater.PreserveRoundTrip | utils/windows_self_updater.py:44 | the `@(...)` array of paths without single quotes reads back as the paths |
| WindowsSelfUpdater.ScriptHeader | utils/windows_self_updater.py:29-54 | as written, with `_ps_escape`: the script is produced exactly when the exe name passes the check, with its error otherwise; it opens with `$ErrorActionPreference = "Stop"` and assigns the plan's variables |
| WindowsSelfUpdater.CorrectedScriptHeader | utils/windows_self_updater.py:29-54 | the same header built with the corrected escape: produced exactly when the exe name passes the check, with its error otherwise, and opening with `$ErrorActionPreference = "Stop"` |
| WindowsSelfUpdater.StringLine | utils/windows_self_updater.py:50-52 | a string assignment line built with `_ps_escape` reads back as the value assigned when the value holds no `$` and no typographic quote |
| WindowsSelfUpdater.CorrectedStringLine | utils/windows_self_updater.py:50-52 | with the corrected escape every string assignment line reads back as the value assigned |
| WindowsSelfUpdater.IntLine | utils/windows_self_updater.py:53 | the `$AppPid` line reads back as the pid |
| WindowsSelfUpdater.ArrayLine | utils/windows_self_updater.py:54 | the `$Preserve` line reads back as the list |
| WindowsSelfUpdater.HeaderExpands | utils/windows_self_updater.py:29-54 | as written, an install directory `$x` gives a header whose `$InstallDir` line does not read back as a plain literal |
| WindowsSelfUpdater.CorrectedHeaderReadsBack | utils/windows_self_updater.py:29-54 | with the corrected escape, for an accepted exe name and preserve paths without single quotes, PowerShell reads back the install directory, the staged directory, the exe name, the pid and the preserve list, for any directories |
| WindowsSelfUpdater.CorrectedHeaderAgrees | utils/windows_self_updater.py:29-54 | where the directories and the exe name hold no `$` and no typographic quote, the corrected header is the header as written |
| WindowsSelfUpdater.HeaderReadsBack | utils/windows_self_updater.py:29-54 | as written, for an accepted exe name, directories and exe name without `$` or typographic quotes, and preserve paths without single quotes, PowerShell reads back the install directory, the staged directory, the exe name, the pid and the preserve list the header assigns |
| WindowsSelfUpdater.PreserveUnquoted | utils/windows_self_updater.py:20-43 | the default preserve paths contain no single quote either |
| Updater.RetryFrom | updater/main.py:94-106 | from a given attempt, the retry loop stops at the first attempt that succeeds, or raises the last error after the final attempt; every attempt before the last one raised |
| Updater.Retried | updater/main.py:94-106 | `_retry` with no attempts does nothing; otherwise it makes between 1 and `retries` calls, returns the outcome of the last, every earlier call raised, and it raises only after using every attempt |
| Updater.Retry | updater/main.py:94-106 | the retry loop makes the calls and yields the outcome the retry function defines |
| Updater.PayloadDirPlacement | updater/main.py:45-49 | the payload directory is named `intense-rp-next` and sits in the updater's folder, or beside that folder when it is named `optional` in any case |
| Updater.PayloadNameValid | updater/main.py:23 | the payload directory name is a single path component |
| Updater.BackupDirSibling | updater/main.py:140-144 | the backup directory sits beside the install directory and is not it; it is `<name>-backup` when that does not exist, and `<name>-backup-<timestamp>` otherwise |
| Updater.BackupDirOfRoot | updater/main.py:140-141 | an install directory without a name has no backup directory: `with_name` raises |
| Updater.ParseArgs | updater/main.py:322-338 | the install directory is expanded; a blank exe name is absent and any other is stripped; an empty payload directory is absent and any other is expanded |
| Updater.Candidates | updater/main.py:128 | the exe candidates are exactly the files ending in `.exe` in any case, other than `updater.exe` |
| Updater.GreaterOrder | updater/main.py:132 | the sort key (size, then lower-cased name) is a strict order, total up to equal keys |
| Updater.BestIndex | updater/main.py:132-133 | the index found holds a largest key, and is the first such, as the stable descending sort puts it first |
| Updater.BestAbove | updater/main.py:132 | a candidate strictly above the best so far is the new best |
| Updater.SelectMainExe | updater/main.py:122-133 | an existing preferred exe wins; without one the call fails exactly when there is no candidate, with `Could not locate an .exe in <dir>`, and otherwise returns a candidate no other candidate ranks above |
| Updater.LaunchCommand | updater/main.py:212-214 | the relaunch command starts with the exe; a frozen updater adds `--deleteupdater --updaterpath <path>`, and otherwise nothing is added |
| Updater.BeforeInstall | updater/main.py:147-169 | once the backup is taken the run is the install block; before it, a run fails after one or two reports, with nothing rolled back and nothing launched |
| Updater.InstalledRun | updater/main.py:171-232 | the install block reports a prefix of the seven steps, at least three; it succeeds exactly when it reports all of them, and then launches; it renames the backup back exactly when the move failed and left nothing at the install path |
| Updater.InstallFailure | updater/main.py:175-232 | a failed install made all 40 attempts, raises the last attempt's error and stops after the third report |
| Updater.TraceRises | updater/main.py:147-225 | every run reports a non-empty prefix of the seven steps, in order; it succeeds exactly when it reports them all, and a success launches the app |
| Updater.RollbackRule | updater/main.py:166-232 | the backup is renamed back exactly when it was taken, every install attempt failed and nothing was left at the install path; then the last install error is raised after three reports |
| Updater.NoWaitWithoutPid | updater/main.py:52-54 | without a positive pid the run does not depend on waiting for the app |
| Updater.LaunchesChosenExe | updater/main.py:208-222 | a run that launches something took the backup and launches the exe chosen by `_select_main_exe`, with the command built for it |
| ConfigLocation.CustomConfigDir | config/location.py:93-104 | a custom path fails exactly when it is blank after stripping, with `Custom config directory is empty.` |
| ConfigLocation.PresetOf | config/location.py:84-106 | a stripped value names a preset exactly when it equals that preset's name; any other value names none |
| ConfigLocation.StorageOptions | config/location.py:71-78 | the options start with `Relative` and end with `Custom`; there is a third exactly on Windows or Linux, which is `Windows AppData` on Windows and `Linux User Data` on Linux |
| ConfigLocation.ResolveConfigDir | config/location.py:81-106 | the only error is the blank-custom-path `ValueError` |
| ConfigLocation.PresetNameRoundTrip | config/location.py:82-93 | a stored preset name, read back through `(preset or "Relative").strip()`, selects that preset |
| ConfigLocation.NameStripped | config/location.py:72-77 | the preset names have no surrounding blanks |
| ConfigLocation.PresetOfName | config/location.py:84-93 | each preset name selects its own preset |
| ConfigLocation.OptionsArePresets | config/location.py:71-106 | every storage option the settings window offers selects a preset; only the last is `Custom`; every other option always resolves |
| ConfigLocation.MissingPresetIsRelative | config/location.py:82-85 | a missing or empty preset resolves to the folder beside the app |
| ConfigLocation.UnknownPresetIsRelative | config/location.py:106 | a preset value that names no preset resolves to the folder beside the app |
| ConfigLocation.ResolveFailsOnlyForBlankCustom | config/location.py:81-106 | resolving fails exactly for the `Custom` preset with a blank custom path |
| ConfigLocation.RelativeCustomIsAnchored | config/location.py:98-102 | a relative custom path that does not start with `~` is taken from the app's directory and resolved |
| ConfigLocation.CustomChosen | config/location.py:93-104 | the `Custom` preset resolves as the custom path does |
| ConfigLocation.AbsoluteCustom | config/location.py:98-102 | an absolute custom path is resolved as it stands |
| ConfigLocation.InferPreset | config/location.py:148-165 | the inferred preset is never unknown; AppData is inferred only on Windows and the Linux folder only on Linux; a named preset comes with an empty custom path and resolves to the same place; `Custom` comes with the resolved directory as text |
| ConfigLocation.InferRoundTrip | config/location.py:148-165 | resolving the inferred preset and custom path gives back the directory it was inferred from, once resolved |
| ConfigLocation.CustomOfResolved | config/location.py:93-104 | the text of a resolved directory, used as a custom path, gives that directory back |
| ConfigLocation.MigrateSameIsNoop | config/location.py:194-198 | directories that resolve to the same place are not migrated |
| ConfigLocation.MigrateGuards | config/location.py:184-234 | the migration copies exactly when the resolved directories differ, the source is a directory, neither contains the other, the target neither is nor contains the app's directory, the target is not a root, and an existing target is a directory that is empty or looks like a config directory; it removes the target first exactly when it exists |
| ConfigLocation.GuardSafe | config/location.py:197-234 | the guards in order on resolved paths let a copy through exactly under the same safety condition |
| UpdateDialogs.NormalizeTagCases | utils/auto_update.py:50-58 | the updater accepts a version exactly when what follows an optional leading `v` is neither empty nor `unknown`, and then its tag is `v` followed by that |
| UpdateDialogs.FormatVersion | ui/update_available_dialog.py:15-23 | a shown version is `unknown` or starts with `v` followed by more |
| UpdateDialogs.FormatVersionIsTag | ui/update_available_dialog.py:15-23 | the shown version is the tag `normalize_tag` gives, and `unknown` wherever `normalize_tag` raises |
| UpdateDialogs.FormatVersionIdempotent | ui/update_available_dialog.py:15-23 | formatting a shown version again changes nothing |
| UpdateDialogs.UnknownRefused | utils/auto_update.py:56-57 | `normalize_tag("unknown")` raises |
| UpdateDialogs.ReleaseNotesUrlIsTag | ui/update_available_dialog.py:32-38 | the release-notes link is the tag's page for a version the updater accepts, and the releases page otherwise |
| UpdateDialogs.ReleaseNotesShowsVersion | ui/update_available_dialog.py:15-38 | for an accepted version the link's tag is the version the dialog shows |
| UpdateDialogs.DefaultAvailability | ui/update_method_dialog.py:22-44 | Git is offered exactly on a run from source, and auto-update exactly on a frozen build on Windows |
| UpdateDialogs.AvailabilityRules | ui/update_method_dialog.py:22-44 | the two methods are never both offered; a method has a reason exactly when it is not offered; something is offered unless a frozen build runs outside Windows; the reasons are the source's texts |

## Left out

- Browser automation, the network proxy of the route handler, the clean-regeneration cache and the logger are not part of this model. They are foreign I/O. The route handler appears only as the producer of a chunk sequence, an optional error and the end marker.
- Admission: `api.py` has no abort signal and does not poll for client disconnects while streaming; the model has neither.
- Admission: the asyncio queues, FastAPI routing, streaming responses and task cancellation become sequences processed one item at a time. The `created` timestamp depends on the clock and is left out. The JSON text encoding of a frame is not modelled; a frame is its JSON value.
- PatchDecoder: the JSON parse of a line is the parameter `parse`. JSON floats are not modelled; numbers are integers. `str()` of a nested string renders without Python's quote-choice rules.
- PatchDecoder: the two toggles are parameters, read once per chunk as the code does.
- PatchDecoder.Decoder.ProcessChunk: the chunk is taken as already-decoded text. The UTF-8 decode of the raw bytes is not modelled, so a chunk that ends inside a multi-byte sequence, whose decode raises and whose whole chunk is then dropped by the handler, is not captured.
- PromptFormat: the formatting settings and the two name-extraction regular expressions are parameters. Each expression returns its two captured groups or nothing. A template or divider that is missing, `null` or not a string is `None` and raises `AttributeError`; a template or divider of another type that has a `replace` method, and message content or names that are not strings, are not modelled.
- Strings: `lower`, `\w` and `isdigit` cover ASCII only. Whitespace is the set Python's `str.isspace` accepts.
- Semver: the local version file read and the release fetch are parameters. The read is one of three outcomes: the text, an `OSError`, or a decode error.
- Semver.FormatError: renders `{version!r}` as the text between single quotes; Python's choice of double quotes for a text holding `'` and its backslash escapes are not reproduced.
- AutoUpdate.ChooseExtractor: the archive path is given as its text `archivePath` and its `name`; whether the file exists is the parameter `archiveExists`.
- AutoUpdate: downloads, release fetches, speed smoothing and archive extraction are I/O and are left out; `extract_archive` is modelled only as its dispatch on the suffix. `prepare_update_from_github` and the `select_windows_zip_asset`/`extract_zip` aliases are left out. The `os.walk` listing is the parameter `walk`.
- ConfigManager: Fernet encryption and file I/O are abstracted. The file contents are the field `stored`; a failed read, decryption or parse is `decoded == None`.
- ConfigManager.ConfigManager.LoadSettings: requires a schema with a first category that has a field, so that a decoded value that is not a dict fails at the first field. The shipped schema meets this (`ConfigManager.SchemaShape`).
- ConfigSchema: the tooltips of the schema are display text and are left out.
- MiniConsole: Qt widgets, styling, scrolling and icons are left out.
- WindowsSelfUpdater: the body of the PowerShell script after its header, the temporary directory and the file write are left out.
- WindowsSelfUpdater.ScriptHeader: models the header as written, with `_ps_escape`; its read-back holds only for values without `$` or typographic quotes. `CorrectedScriptHeader` is the header with the corrected escape (see Findings).
- WindowsSelfUpdater.StringLine: requires a value without `$` or typographic quotes, because `_ps_escape` does not escape those (see Findings); `CorrectedStringLine` holds for every value.
- WindowsSelfUpdater.HeaderReadsBack: requires directories and an exe name without `$` or typographic quotes, for the same reason; `CorrectedHeaderReadsBack` drops that requirement.
- WindowsSelfUpdater.ScriptHeader: paths are rendered as POSIX text by `Paths`, so Windows separators, drive roots and `str()` of a Windows path are not modelled; the same holds for `Updater.ParseArgs`.
- Updater: waiting for the process, file-system steps, `Popen` and the timestamp are the parameter `World`. `ParseArgs` takes `app_pid` already as an integer; `argparse` itself is left out. The merge-copy restore is one outcome, and a failed cleanup is swallowed as in the code. `_is_frozen` and `_resolve_updater_exe_path` are parameters.
- UpdateDialogs: whether the build is frozen and the platform are parameters. The widget code of both dialogs is left out.
- ConfigLocation: `read_pointer_file`, `write_pointer_file`, `get_active_config_dir` and `get_local_anchor_dir` are left out; the anchor directory is part of the parameter `Env`. The `OSError` fallback of `resolve()` to `absolute()` is not modelled. Paths are POSIX only and symbolic links are not followed.
- Paths.ExpandUser: only a leading bare `~` is expanded; `~user` is kept as it is rather than becoming that user's home directory.
- Paths.WithName: the `ValueError` message is the fixed text `ValueError`, not pathlib's text naming the path that has an empty name or the name that is invalid. The final `rmtree`/`copytree` are returned as a `Migration` plan rather than performed.
- ConfigLocation.InferRoundTrip: requires that the text of the resolved directory has no trailing whitespace, because `resolve_config_dir` strips a custom path before using it.
- The download dialog's byte and speed formatting is floating point and is left out.

## Findings

| source | as written | input that shows it | evidently intended | confidence | as-written member | corrected member |
|---|---|---|---|---|---|---|
| utils/windows_self_updater.py:159-161 | `_ps_escape` escapes only the backtick and `"` | `"$x"`, which PowerShell expands inside a double-quoted literal, and `a”b`, where the typographic quote ends the literal | escape `$` and every PowerShell double-quote character too, so that any path reads back unchanged | medium, not executed | WindowsSelfUpdater.PsEscapeExpands | WindowsSelfUpdater.PsEscapeLiteralReadsBack |

