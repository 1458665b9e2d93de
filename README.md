# UX-AI-Insight request handlers, modelled in Dafny

UX-AI-Insight asks a language model for user-experience advice about web
pages. It has two HTTP handlers, and this project models both:

- **The interactive step controller** (`POST /api/interactive-analyze`). It
  handles one step of an exploration agent. It opens a browser on the
  site's start page and replays the client's action history. Then one of two
  things happens. If the step budget of 5 is spent, it forces a `finish` and
  requests a UX critique. Otherwise it asks the planner for the next action
  and executes it, retrying up to 3 times. A freshly planned `navigate` must
  stay on the host that served the request. A `finish` triggers the critique.
  The response carries the action, the new page state (markup, screenshot,
  inventory of interactive elements with derived CSS selectors) and the
  advanced step counter.
- **The page summariser** (`POST /api/analyze`). It checks that the URL is
  `http(s)`, fetches the page and decodes it with the charset named in
  `Content-Type`. It drops characters outside the kept classes and
  normalises the body text. It lists headings, links, buttons, form fields
  and images as structural lines. It cuts both texts to 5000 characters and
  asks the model for three suggestions.

Modules, one per concern:

| file | module | what it holds |
|---|---|---|
| common.dfy | Common | `Option`, `Result`, `Outcome`; JavaScript truthiness of strings |
| jstext.dfy | JsText | `\s`, `trim`, `/\s+/g` and `/\s\s+/g` replacements, `split` prefix, ASCII `toLowerCase` |
| elements.dfy | Elements | the interactive-element inventory and selector derivation |
| hosts.dfy | Hosts | URL hostname extraction and the same-host rule |
| browser.dfy | Browser | the browser page as a class whose state is the operations applied to it; page-state capture |
| actions.dfy | Actions | the action record and the `switch` that executes an action |
| interactive.dfy | InteractiveAnalyze | the interactive handler: replay, forced finish, plan/execute/retry, critique |
| pagetext.dfy | PageText | character filter, blank-line merge, white-space squeeze, truncation |
| charset.dfy | Charset | the charset read from `Content-Type` |
| structure.dfy | Structure | the structural lines and the five loops that build them |
| analyze.dfy | Analyze | the summariser handler |

The browser, the network, the text decoder, the HTML parser and the
language model are not modelled in detail. Each one is a function
parameter or an oracle method whose result is unconstrained beyond what the
handlers rely on:

- What the browser shows after a sequence of successful operations is the
  parameter `site: seq<Op> -> RawPage`.
- A browser operation may throw. It then leaves the page as it was.
- A planner reply is read as an action by the parameter `parse`.
- The summariser's decoder is `decode` (None when the charset label is
  refused) plus `decodeUtf8`. Its DOM parser is `load`.
- Prompts are recorded by the data they show, not by their wording.

Two behaviours of the handler worth noting:

- A planner reply that does not parse ends the interactive request at once
  with `AI response was not a valid JSON format.` (status 500). It does not
  consume a retry.
- The forced-finish path swallows every browser or replay error. It then
  answers with the empty page state, so a replay failure there is not fatal.

## Model

| member | source | states |
|---|---|---|
| JsText.Trim | app/api/analyze/route.ts:91 | `trim` returns the slice between the leading and trailing white-space runs and has no white space at either end |
| JsText.TrimKeepsNonSpace | app/api/analyze/route.ts:91 | trimming removes white space only: the non-white-space characters are kept in order |
| JsText.TrimFixesClean | app/api/analyze/route.ts:91 | text with no white space at its ends is its own trim |
| JsText.TrimSeparates | app/api/analyze/route.ts:91 | trimming leaves the white space between two words untouched and trims only the outer ends |
| JsText.CollapseRuns | app/api/interactive-analyze/route.ts:38 | `/\s+/g` to a space leaves no two adjacent white-space characters, only plain spaces, and keeps whether each end is white space |
| JsText.CollapseRunsKeepsNonSpace | app/api/interactive-analyze/route.ts:38 | collapsing changes white space only |
| JsText.CollapseRunsFixes | app/api/interactive-analyze/route.ts:38 | text already of single plain spaces is unchanged, so collapsing is idempotent |
| JsText.CollapseRunsOfRun | app/api/interactive-analyze/route.ts:38 | a whole run of white space becomes exactly one plain space |
| JsText.CollapseRunsAppend | app/api/interactive-analyze/route.ts:38 | text that meets outside a white-space run collapses piece by piece |
| JsText.CollapseRunsSeparates | app/api/interactive-analyze/route.ts:38 | a run of white space between two words becomes exactly one plain space, and the text on either side collapses on its own, so words stay apart |
| JsText.SqueezeRuns | app/api/analyze/route.ts:89 | `/\s\s+/g` to a space leaves no two adjacent white-space characters and never lengthens the text |
| JsText.SqueezeRunsKeepsNonSpace | app/api/analyze/route.ts:89 | squeezing changes white space only |
| JsText.SqueezeRunsFixes | app/api/analyze/route.ts:89 | text without adjacent white space is unchanged |
| JsText.SqueezeRunsOfRun | app/api/analyze/route.ts:89 | a run of two or more white-space characters becomes one plain space; a lone one is kept as it is |
| JsText.SqueezeRunsAppend | app/api/analyze/route.ts:89 | text that meets outside a white-space run squeezes piece by piece |
| JsText.SqueezeRunsSeparates | app/api/analyze/route.ts:89 | between two words a run of two or more becomes one plain space and a lone white-space character stays, and the text on either side squeezes on its own |
| JsText.PrefixBefore | app/api/interactive-analyze/route.ts:50 | `split(c)[0]` is the longest prefix free of the separator, and the separator follows it when it is not the whole text |
| JsText.Lower | app/api/interactive-analyze/route.ts:37 | `toLowerCase` keeps the length and lowers each ASCII letter in place |
| Elements.ChooseQualifierIsTopCandidate | app/api/interactive-analyze/route.ts:48-55 | the selector chain picks the highest-priority present attribute (id, first class, name, type, aria-label, placeholder) and the bare tag exactly when none is present |
| Elements.ParseRender | app/api/interactive-analyze/route.ts:49-55 | every qualifier renders to text from which it is read back exactly, so no attribute value makes one kind look like another |
| Elements.Selector | app/api/interactive-analyze/route.ts:37-55 | the selector starts with the lower-cased tag and the rest reads back as the chosen qualifier |
| Elements.CollapseText | app/api/interactive-analyze/route.ts:38 | the element text has no edge white space, no adjacent white space, only plain spaces, and the same non-white-space characters as the DOM text |
| Elements.CollapseTextIdempotent | app/api/interactive-analyze/route.ts:38 | collapsing collapsed text changes nothing |
| Elements.CollapseTextSeparates | app/api/interactive-analyze/route.ts:38 | between two words of the element text a run of white space becomes exactly one plain space |
| Elements.Describe | app/api/interactive-analyze/route.ts:36-70 | an inventory entry carries the lower-cased tag, the derived selector, the element text collapsed by `CollapseText`, and the id, name, class, type, href, value, placeholder and aria-label copied unchanged |
| Elements.DescribeAll | app/api/interactive-analyze/route.ts:30-71 | the inventory has one entry per element, in document order |
| Hosts.HostWithoutPort | app/api/interactive-analyze/route.ts:147 | `host.split(':')[0]` is the header up to its first colon and holds no colon |
| Hosts.HostnameFromUrl | app/api/interactive-analyze/route.ts:15-23 | `new URL(u).hostname`, or None where the constructor throws: surrounding control characters and tabs and newlines removed, the scheme split off, special schemes reading the authority after any run of slashes or backslashes, `file` URLs dropping `localhost`, and the host name lower-cased (its properties are the lemmas below) |
| Hosts.NavigationAllowed | app/api/interactive-analyze/route.ts:146-153 | a navigation is let through only when the `Host` header is given and non-empty and the target's hostname exists, is non-empty and equals the header up to its first colon, which such a hostname never holds |
| Hosts.HostnameRoundTrip | app/api/interactive-analyze/route.ts:15-23 | under every scheme but `file`, the hostname of `scheme://user@host:port/path` is `host`, for a user part free of `/`, `?`, `#` and `\`, a port of digits up to 65535 and a path opening with `/`, `?` or `#`; under a special scheme the host's last label must not open with `0x`, which the URL standard may read as an IPv4 number |
| Hosts.PlainHostnameRoundTrip | app/api/interactive-analyze/route.ts:15-23 | under every scheme but `file`, the hostname of `scheme://host/path` is `host`; under a special scheme the host's last label must not open with `0x`, which the URL standard may read as an IPv4 number |
| Hosts.BadPortRefused | app/api/interactive-analyze/route.ts:15-23 | a port that is not all digits, or exceeds 65535, makes the constructor throw, so no hostname |
| Hosts.BackslashEndsAuthority | app/api/interactive-analyze/route.ts:15-23 | under a special scheme a backslash ends the host as a slash does, for a host whose last label does not open with `0x`; under another scheme it makes the host invalid |
| Hosts.SlashlessSpecial | app/api/interactive-analyze/route.ts:15-23 | a special scheme other than `file` reads the host after any run of slashes and backslashes, none included, for a host whose last label does not open with `0x`; `scheme:` alone throws |
| Hosts.FileHostnameOf | app/api/interactive-analyze/route.ts:15-23 | a `file` URL names the host after its two slashes, except `localhost`, which gives the empty hostname, for a host whose last label does not open with `0x` |
| Hosts.CleanVisible | app/api/interactive-analyze/route.ts:15-23 | a URL without control characters or spaces is left as it is by the clean-up that opens the parse |
| Hosts.PortDropped | app/api/interactive-analyze/route.ts:147 | a `Host` header `host:port` or `host` compares as `host` |
| Hosts.SameHostAllowed | app/api/interactive-analyze/route.ts:146-147 | under every scheme but `file`, a target on the serving host passes the check whether or not the header carries a port; under a special scheme the host's last label must not open with `0x`, which the URL standard may read as an IPv4 number |
| Hosts.OtherHostRefused | app/api/interactive-analyze/route.ts:146-153 | under every scheme, `file` included, a target on another host is refused, and so is any target when the header is absent or empty |
| Browser.Snapshot | app/api/interactive-analyze/route.ts:25-74 | the captured state holds the page's markup, screenshot and the inventory built from its elements |
| Browser.Page.constructor | app/api/interactive-analyze/route.ts:228-236 | a new page has had no operation applied |
| Browser.Page.Perform | app/api/interactive-analyze/route.ts:136 | a successful `goto`/`click`/`fill` is appended to the page's operations; one that throws changes nothing |
| Browser.Launch | app/api/interactive-analyze/route.ts:228-236 | launching yields a fresh page with no operations, or the error thrown |
| Browser.GetPageState | app/api/interactive-analyze/route.ts:25-74 | a capture that succeeds is the snapshot of what the page shows now |
| Actions.ParseVerb | app/api/interactive-analyze/route.ts:249-272 | the switch's classification yields one of the four kinds or an unknown name outside them, and keeps the kind string |
| Actions.ParseVerbName | app/api/interactive-analyze/route.ts:249-272 | reading a kind's string back gives that kind, for every kind the switch can see |
| Actions.EffectOf | app/api/interactive-analyze/route.ts:249-272 | the `switch` over an action: `click` and `fill` run with the selector (and value) they need or do nothing, `navigate` runs `goto` with a string value and otherwise throws, and the host check refuses other hosts (its properties are the three lemmas below) |
| Actions.CheckedNavigation | app/api/interactive-analyze/route.ts:369-386 | a checked `navigate` goes to its URL exactly when the value is a string on the serving host; otherwise it throws the invalid-URL or the external-URL error |
| Actions.UncheckedNavigation | app/api/interactive-analyze/route.ts:260-270 | in the normal replay a `navigate` with a string value always goes to it |
| Actions.SkipAndRefuse | app/api/interactive-analyze/route.ts:358-392 | only `navigate` throws before touching the page; `click`/`fill` lacking selector or value, `finish` and unknown kinds do nothing |
| Actions.CheckOnlyRefuses | app/api/interactive-analyze/route.ts:144-154 | the host check only turns an execution into an error; otherwise checked and unchecked execution agree |
| Actions.OpsOf | app/api/interactive-analyze/route.ts:246-283 | the page operations a history performs when nothing throws: one per action that runs, in order (partnered by `OpsOfAppend` and `CheckedReplayAgrees`) |
| Actions.OpsOfAppend | app/api/interactive-analyze/route.ts:246-283 | replaying one more action adds that action's operation, if any, at the end |
| Actions.PrefixStep | app/api/interactive-analyze/route.ts:246-283 | extending a replayed prefix by one action adds its operation and keeps the prefix free of refusals when that action is not refused |
| Actions.CheckedReplayAgrees | app/api/interactive-analyze/route.ts:131-165 | a history the forced-finish replay accepts replays to the same operations in the normal replay |
| Actions.OpsOfBound | app/api/interactive-analyze/route.ts:246-283 | a replay performs at most one operation per action |
| InteractiveAnalyze.StartUrl | app/api/interactive-analyze/route.ts:112-114 | the start URL is the protocol for the environment, the `Host` header (`null` when absent) and `/dummy-ec-site/index.html` |
| InteractiveAnalyze.Excerpt | app/api/interactive-analyze/route.ts:307 | the markup excerpt is a prefix of at most 5000 characters, all of a shorter markup |
| InteractiveAnalyze.ReplayMessage | app/api/interactive-analyze/route.ts:277-281 | the error a failed replay reports: `Failed to re-execute previous action: `, the kind, ` on `, the selector (`undefined` when absent), `. Error: ` and the cause |
| InteractiveAnalyze.Replay | app/api/interactive-analyze/route.ts:244-285 | the replay performs the history's operations in order up to the first action that throws, and reports that action and why it threw |
| InteractiveAnalyze.RebuildQuietly | app/api/interactive-analyze/route.ts:121-169 | the forced-finish rebuild yields the empty state or the snapshot of the page after the start URL and the host-checked history, and the URL shown is the page's once a page exists |
| InteractiveAnalyze.FinishAtLimit | app/api/interactive-analyze/route.ts:117-209 | the forced finish plans nothing, answers `finish` with the reason `Maximum steps reached.`, returns the empty state or the snapshot of the fully replayed page, and fails only when the critique fails |
| InteractiveAnalyze.Attempt | app/api/interactive-analyze/route.ts:328-402 | one attempt either fails outright (service error, or `AI response was not a valid JSON format.`) with the page untouched, or executes the parsed action: `finish` never throws, a throw leaves the page as it was, and a success adds the action's operation |
| InteractiveAnalyze.PlanAndExecute | app/api/interactive-analyze/route.ts:291-403 | at most 3 attempts, each prompt shows the current page with a retry note after the first, only a throwing execution costs an attempt, and a parse or service error aborts |
| InteractiveAnalyze.OpenAndReplay | app/api/interactive-analyze/route.ts:228-288 | the page is the start URL plus the replayed history, or the request fails with the browser error or the wrapped replay error naming the action |
| InteractiveAnalyze.StepOnPage | app/api/interactive-analyze/route.ts:288-453 | on a rebuilt page, every planner prompt shows that page, a successful step answers with the last planned action and the snapshot after its operation, and the critique is requested only after `finish`; every failure answers 500 |
| InteractiveAnalyze.TakeStep | app/api/interactive-analyze/route.ts:228-453 | a normal step answers with the last planned action and the snapshot after it, critiques only after `finish`, and fails with the exhausted message after 3 failed executions; every failure answers 500 |
| InteractiveAnalyze.Post | app/api/interactive-analyze/route.ts:103-462 | the handler's whole contract: the forced finish at step 4 or later, 400 for a missing task, replay failures, planning, exhaustion and a successful step; every failure but a missing task answers 500, the forced path's failed critique included |
| PageText.FilterChars | app/api/analyze/route.ts:68 | the character filter keeps only the listed classes |
| PageText.FilterIsSubsequence | app/api/analyze/route.ts:68 | the filter only deletes characters |
| PageText.FilterMembership | app/api/analyze/route.ts:68 | a character survives exactly when it occurs in the input and is in a kept class |
| PageText.FilterCounts | app/api/analyze/route.ts:68 | every kept character keeps all its occurrences |
| PageText.FilterIdempotent | app/api/analyze/route.ts:68 | filtering twice is filtering once |
| PageText.MergeBlankLines | app/api/analyze/route.ts:87 | `/\n\s*\n/g` to a line feed: a line feed followed by white space holding another line feed becomes one line feed, greedily through the last line feed of the run; never lengthens the text |
| PageText.MergeStarts | app/api/analyze/route.ts:87 | the merge keeps the first character |
| PageText.MergeEnds | app/api/analyze/route.ts:87 | text ending in a non-white-space character keeps it last through the merge |
| PageText.MergeAppend | app/api/analyze/route.ts:87 | text that meets outside a white-space run merges piece by piece |
| PageText.MergeLeavesNoBlankLine | app/api/analyze/route.ts:87 | after `/\n\s*\n/g` no line feed is followed by white space holding another line feed |
| PageText.MergeKeepsNonSpace | app/api/analyze/route.ts:87 | the merge removes white space only |
| PageText.MergeFixes | app/api/analyze/route.ts:87 | text without adjacent white space is unchanged |
| PageText.MergeSeparates | app/api/analyze/route.ts:87 | two words and the run between them merge on their own, the words keep their edge characters and the run stays non-empty white space |
| PageText.GapOfRun | app/api/analyze/route.ts:87-89 | a run of white space between two words comes to exactly one white-space character, a plain space for two or more characters without a line feed |
| PageText.Normalize | app/api/analyze/route.ts:86-91 | the normalised text has no edge or adjacent white space and keeps every other character in order |
| PageText.NormalizeSeparates | app/api/analyze/route.ts:86-91 | between two words the normalised text has exactly one white-space character, one plain space for a run of two or more without a line feed, and each side is normalised on its own, so words stay apart |
| PageText.NormalizeIdempotent | app/api/analyze/route.ts:86-91 | normalising normalised text changes nothing |
| PageText.Truncate | app/api/analyze/route.ts:94-97 | text over 5000 characters becomes its first 5000 plus `... (truncated)`; shorter text is unchanged |
| PageText.TruncateIdempotent | app/api/analyze/route.ts:94-97 | truncating truncated text changes nothing |
| PageText.TruncateKeepsEdges | app/api/analyze/route.ts:94-97 | cutting text without edge white space leaves none at either end |
| Charset.FirstMatch | app/api/analyze/route.ts:41 | the case-insensitive `charset=` expression matches first at the returned index, or nowhere |
| Charset.Captured | app/api/analyze/route.ts:41 | the capture is the non-empty text right after the marker up to the first `;` or the end: a prefix of what follows the marker, holding no `;`, followed by `;` when it stops short |
| Charset.CharsetOf | app/api/analyze/route.ts:36-52 | the charset is never empty and holds no `;` |
| Charset.DefaultWithoutMarker | app/api/analyze/route.ts:37-40 | without a header, or without a lower-case `charset=` in it, the charset is `utf-8` |
| Charset.UpperCaseMarkerIgnored | app/api/analyze/route.ts:40-41 | the presence test is case-sensitive, so an upper-case-only marker keeps `utf-8` |
| Charset.CharsetIsCanonical | app/api/analyze/route.ts:43-49 | the charset is lower case and never one of the Shift_JIS aliases |
| Charset.NormalizeAlias | app/api/analyze/route.ts:45-49 | the three Shift_JIS aliases become `shift-jis`, every other label is kept, and no alias is left |
| Charset.NormalizeAliasIdempotent | app/api/analyze/route.ts:45-49 | normalising a normalised label changes nothing |
| Charset.CharsetAfterMediaType | app/api/analyze/route.ts:40-49 | `<media type>charset=X` followed by nothing or `;...` yields X lower-cased with aliases normalised, whenever the expression does not already match inside the media type |
| Charset.CharsetAfterPlainMediaType | app/api/analyze/route.ts:40-49 | in particular for any media type without the letter `c` in either case, such as `text/html; ` |
| Charset.CharsetAtFirstMatch | app/api/analyze/route.ts:40-49 | for any header holding the lower-case marker, the charset is the value after the first case-insensitive match up to the first `;`, lower-cased, with aliases normalised, wherever the lower-case marker is |
| Charset.EarlierMatchWins | app/api/analyze/route.ts:40-43 | `CHARSET=x; charset=y` yields `x`: the upper-case marker comes first |
| Charset.NoMatchDefault | app/api/analyze/route.ts:37-42 | a header on which the expression matches nowhere keeps `utf-8` |
| Charset.EmptyValueDefault | app/api/analyze/route.ts:37-42 | a header ending in the marker with no value, such as `text/html; charset=`, holds the marker and keeps `utf-8` |
| Structure.HeadingLine | app/api/analyze/route.ts:104-106 | a heading line is `Heading <tag>: `, then the heading text trimmed, then a line feed |
| Structure.LinkLine | app/api/analyze/route.ts:109-115 | a link line is written exactly when `href` is given and the trimmed text is not empty |
| Structure.ButtonLine | app/api/analyze/route.ts:118-123 | a button line is written exactly when the trimmed text is not empty |
| Structure.ImageLine | app/api/analyze/route.ts:140-148 | an image line is written exactly when `alt` or `src` is given, in the `alt` form when `alt` is given |
| Structure.FieldLabel | app/api/analyze/route.ts:131 | the label is the trimmed `for` label when that is not blank, else the trimmed preceding label, and is empty only when both are blank |
| Structure.RenderedPieces | app/api/analyze/route.ts:132-135 | the details of a field line are written one after another, in order |
| Structure.PieceValues | app/api/analyze/route.ts:132-135 | a field line carries the name when given, the quoted label when not blank and the quoted placeholder when given |
| Structure.FieldLineBare | app/api/analyze/route.ts:126-137 | a field line is only the type exactly when the field has no name, no label and no placeholder |
| Structure.FieldInfo | app/api/analyze/route.ts:126-137 | the field line built by appending details is the type followed by the present details |
| Structure.FieldLine | app/api/analyze/route.ts:126-137 | a field line: `Input Field (Type: <type>)`, then each present detail (name, quoted label, quoted placeholder) in order, then a line feed (partnered by `FieldInfo`, `FieldLineBare` and `PieceValues`) |
| Structure.SectionAppend | app/api/analyze/route.ts:104-148 | each loop writes its elements' lines in element order |
| Structure.SectionEmpty | app/api/analyze/route.ts:104-148 | a section is empty exactly when no element contributes a line |
| Structure.Sections | app/api/analyze/route.ts:101-148 | the structured content: the heading, link, button, field and image sections in that order (partnered by `BuildStructure`, `StructureEmpty` and `StructureEndsLine`) |
| Structure.HeadingsSilent | app/api/analyze/route.ts:104-106 | the heading section is empty exactly when there are no headings |
| Structure.LinksSilent | app/api/analyze/route.ts:109-115 | the link section is empty exactly when no link has both an `href` and non-blank text |
| Structure.ButtonsSilent | app/api/analyze/route.ts:118-123 | the button section is empty exactly when every button's text is blank |
| Structure.FieldsSilent | app/api/analyze/route.ts:126-137 | the field section is empty exactly when there are no fields |
| Structure.ImagesSilent | app/api/analyze/route.ts:140-148 | the image section is empty exactly when no image has an `alt` or a `src` |
| Structure.StructureEmpty | app/api/analyze/route.ts:101-148 | the structural text is empty exactly when there are no headings, no fields, and no link, button or image that qualifies |
| Structure.StructureEndsLine | app/api/analyze/route.ts:101-148 | non-empty structural text is whole lines |
| Structure.AppendHeadings | app/api/analyze/route.ts:104-106 | the heading loop appends every heading's line |
| Structure.AppendLinks | app/api/analyze/route.ts:109-115 | the link loop appends the qualifying links' lines |
| Structure.AppendButtons | app/api/analyze/route.ts:118-123 | the button loop appends the qualifying buttons' lines |
| Structure.AppendFields | app/api/analyze/route.ts:126-137 | the field loop appends every field's line |
| Structure.AppendImages | app/api/analyze/route.ts:140-148 | the image loop appends the qualifying images' lines |
| Structure.BuildStructure | app/api/analyze/route.ts:101-148 | the five loops build the sections in the order headings, links, buttons, fields, images |
| Analyze.HttpUrlPrefixes | app/api/analyze/route.ts:20 | `/^https?:\/\//` accepts exactly the URLs starting with `http://` or `https://` |
| Analyze.HttpUrl | app/api/analyze/route.ts:20 | `/^https?:\/\//`: `http`, an optional `s`, then `://` at the start (partnered by `HttpUrlPrefixes`) |
| Analyze.AcceptsUrl | app/api/analyze/route.ts:20 | the URL guard: present, a string, not empty, and matching the pattern (partnered by `Post`'s 400 clause) |
| Analyze.Fetch | app/api/analyze/route.ts:27-31 | `fetch` resolves to a response with a status from 200 to 999, informational ones never reaching the caller, that is a success exactly when its status is in the 200 range, or it throws |
| Analyze.ErrorResponse | app/api/analyze/route.ts:30 | `NextResponse.json` builds the error response exactly when the status is from 200 to 599 and not one that never carries a body; otherwise the constructor throws |
| Analyze.FailedStatusAllowed | app/api/analyze/route.ts:28-30 | of the statuses a failed fetch reports, exactly 304 and those above 599 are refused by the response constructor |
| Analyze.Decoded | app/api/analyze/route.ts:54-64 | the page text is what the decoder for the header's charset gives, or the UTF-8 decoding when that decoder refuses the label |
| Analyze.Summarize | app/api/analyze/route.ts:68-154 | both texts shown to the model are at most 5015 characters |
| Analyze.SummaryText | app/api/analyze/route.ts:84-97 | the text excerpt has no edge white space and, when not cut, keeps every non-white-space character of the body text |
| Analyze.SummaryStructure | app/api/analyze/route.ts:151-154 | structural text of at most 5000 characters is shown whole, as whole lines |
| Analyze.DetectCharset | app/api/analyze/route.ts:36-52 | the handler's charset steps compute the header's charset |
| Analyze.Preprocess | app/api/analyze/route.ts:68-154 | the handler's preprocessing computes the summary of the decoded page |
| Analyze.Post | app/api/analyze/route.ts:15-185 | 400 exactly for a rejected URL; a thrown fetch answers 500; a non-ok response reads no body and answers its status with `Failed to fetch URL: `, or 500 when that status cannot be answered (304 or above 599); the body is read only after an ok response and a failed read answers 500; an ok response whose body is read always builds the prompt, from the page decoded as `Decoded` says; once the prompt is built the answer is the suggestions or a 500, and suggestions are only given after that prompt |

## Left out

- Playwright, the network, `TextDecoder`, cheerio and the Gemini client are not modelled. They are parameters (`site`, `decode`, `decodeUtf8`, `load`) or oracle methods whose results are unconstrained.
- Prompt wording, `JSON.stringify` of the history and inventory, and base64 encoding of the screenshot are not modelled. Prompts are records of what they show.
- Reading a planner reply (the fenced-block regular expression and `JSON.parse`) is the parameter `parse`. It gives an action or nothing, so replies that parse to JSON values other than an object are not modelled:
  - A reply of `null` parses. Reading `action.action` at app/api/interactive-analyze/route.ts:350 then throws a `TypeError`, and the request answers 500 with that error's message, not `AI response was not a valid JSON format.`.
  - A reply that is a JSON number or string parses too. It has no `action` field, so it reaches the switch's default at :388-393. The step succeeds and echoes the raw value as its action.
- Elements.Selector: the inventory covers HTML elements only. The query at app/api/interactive-analyze/route.ts:31-35 also finds SVG `<a>` elements, whose `className` is an object with no `split`. For such an element without an id, the capture throws at :50, so the request answers 500 on the normal path and shows the empty page state on the forced path. The model gives every element a selector; `className` is always the class attribute's string.
- Request body parsing is not modelled: a failing `req.json()`, non-string `task`, `url` or action fields, and a non-number `currentStep`. Absent or non-string strings are `None`.
- Hosts.HostnameFromUrl: follows the WHATWG URL parser for absolute URLs (scheme, `file` hosts, special and other schemes, credentials, ports, backslashes) but not in every detail:
  - percent-decoding of special hosts is not modelled, so a special host holding `%` is refused;
  - IDNA is not modelled, so a special host with a non-ASCII character is refused;
  - a special host whose last label is all digits or opens with `0x` is not read as an IPv4 address (the URL standard rewrites it in dotted decimal, or throws when it is not one) and stays as written, lower-cased; the lemmas about special-scheme hosts exclude such hosts;
  - `xn--` labels are not validated;
  - an IPv6 host only has its brackets checked, and it is not serialised;
  - the percent-encoding of control and non-ASCII characters in the hosts of other schemes is not modelled;
  - relative URLs and base URLs are not modelled.
- An IPv6 target can never pass the same-host check, because `host.split(':')[0]` of a bracketed `Host` header is `[`; the model keeps that behaviour.
- JsText.Lower: lowers ASCII letters only. Full Unicode `toLowerCase` is not modelled.
- Strings are sequences of characters. JavaScript lengths count UTF-16 code units, so `substring(0, 5000)` and the 5000 limits agree with the model only for text in the Basic Multilingual Plane.
- Browser.Page.Perform: an operation that throws is assumed to leave the page unchanged. A real click may change the page before failing.
- The `value` property read from input elements is taken as reported. It is not derived from the markup.
- Errors thrown that are not `Error` instances would answer with a fixed message. The model treats every thrown error as an `Error` carrying its message.
- Closing the browser in `finally`, console logging and environment variables are not modelled. `NODE_ENV === 'production'` is the parameter `production`.
- The `euc-jp` branch of the alias table assigns the same value and so changes nothing. The model has no separate case for it.
- Structure.FieldLabel: the label texts (`label[for=id]` and the preceding `label`) are given with the field. The DOM lookups that find them are not modelled, including an absent `id` selecting `label[for="undefined"]`.
