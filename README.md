# Auto-troubleshooting: a verified model of the report builder and its helpers

This project models the core of an automated troubleshooting system in Dafny. An alert
reaches an n8n workflow, which validates it. Tools on an MCP server then gather evidence
(Kubernetes pod and events, a shallow clone of the code, an HTTP probe). A report builder
turns the diagnosis into a sanitised record for a template. A small REST API lists the
resulting tickets and records feedback on them.

The modules, one per source file, plus two shared ones:

- `Js`: the untyped JavaScript values these programs handle. It covers `null`, `undefined`,
  booleans, numbers (integers, `NaN` and the infinities), strings, arrays and objects as
  ordered member lists. On top of them it defines truthiness, `||`, `??`, property access,
  `String(v)`, `Number(v)`, and the string helpers the code calls: `trim`, `split`, `join`,
  ASCII `toLowerCase`/`toUpperCase`, `startsWith` and `slice(-n)`.
- `PosixPath`: `path.resolve`, `path.join` and `path.basename` as normalisation over a list
  of path segments, with the text form of a path and the text-prefix containment test.
- `Redaction`: `sanitizeText` and `sanitizeArray`. The two global regular-expression
  replacements are written as scanners over the explicit key vocabulary. Both patterns
  carry the `gi` flags, so both ignore case.
- `ValueRedaction`: `sanitizeObjectValues`. It is a recursive specification function plus
  the loop over `Object.entries` as a method proved against it.
- `Evidence`: `formatKubernetesEvidence`, `formatCodeEvidence` and `formatNetworkEvidence`.
  The two `output +=` formatters are methods with loops, proved against specification
  functions.
- `Report`: the three enum normalisers and `buildReportData`, with the UUID and the clock
  reading as parameters.
- `Tickets`: the ticket API handlers. They take the query result as a parameter and return
  the statements they would send plus their reply. The list statement is built by an
  imperative method as the route builds it.
- `KubernetesTool`: the event, pod and deployment mappings, the event field selector, and
  the sorted, duplicate-free key lists of config maps and secrets.
- `GitTool`: path containment for reading and listing files, and the clone options. It also
  models the temporary-directory guard, with the directories on disk as a `Workspace`
  object that clone and cleanup update.
- `NetworkTool`: timeout and method normalisation, the error-code lookup and error text,
  and the shape of the probe result.
- `SshConfig`: home-path expansion, environment-variable precedence for the key and
  configuration paths, the generated configuration text and the `ssh -F` command.
- `Workflow`: the n8n required-field check.

## Model

| member | source | states |
|---|---|---|
| Redaction.SanitizeText | n8n/report/report-generator.js:13-30 | `''` for a falsy input; `String(v)` untouched for a truthy non-string; empty exactly when the input is falsy or its text is empty |
| Redaction.MatchAtStart | n8n/report/report-generator.js:19-27 | a match keeps a non-empty first group and is followed by a non-empty value run inside the text |
| Redaction.UnmentionedUnchanged | n8n/report/report-generator.js:19-27 | text mentioning no vocabulary word, in any case, passes through either replacement unchanged |
| Redaction.SanitizeTextKeepsPlainText | n8n/report/report-generator.js:13-29 | `sanitizeText` returns text without a vocabulary word as it is |
| Redaction.NoTelltaleIsPlain | n8n/report/report-generator.js:8-9 | text with none of the letters p, s, t, c in any case mentions no vocabulary word |
| Redaction.NoSeparatorUnchanged | n8n/report/report-generator.js:19-27 | text without the pattern's separator (`:`/`=` for the first, `=` for the second) is left alone |
| Redaction.MatchIsOrderFree | n8n/report/report-generator.js:20 | the order of the vocabulary alternatives never changes what is matched |
| Redaction.FirstMatchFinds | n8n/report/report-generator.js:20 | whichever alternative is followed by the rest of the pattern decides the match |
| Redaction.MatchNeedsSeparator | n8n/report/report-generator.js:20-25 | every match contains the pattern's separator |
| Redaction.AssignmentRedacted | n8n/report/report-generator.js:19-29 | `KEY=value` keeps `KEY=` and has its value replaced by `[REDACTED]`, whatever the key's case |
| Redaction.AssignmentReplaced | n8n/report/report-generator.js:19-27 | each pattern alone rewrites `KEY=value` to `KEY=[REDACTED]` |
| Redaction.JsonPairRedacted | n8n/report/report-generator.js:19-29 | `"KEY": "value"` becomes `"KEY": [REDACTED]`: key, quotes and separator kept, the quoted value replaced |
| Redaction.JsonPairReplaced | n8n/report/report-generator.js:19-22 | the first pattern consumes the value together with its quotes |
| Redaction.JsonPairKeptByAssignmentPattern | n8n/report/report-generator.js:24-27 | the second pattern leaves a redacted JSON pair alone |
| Redaction.SanitizeTextNotIdempotent | n8n/report/report-generator.js:19-29 | sanitising twice can remove more than sanitising once: `"KEY":v"tail` loses `tail` only on the second pass |
| Redaction.InnerQuoteOnce | n8n/report/report-generator.js:19-29 | the first pass over `"KEY":v"tail` leaves `"KEY":[REDACTED]tail` |
| Redaction.InnerQuoteTwice | n8n/report/report-generator.js:19-29 | the second pass over `"KEY":[REDACTED]tail` leaves `"KEY":[REDACTED]` |
| Redaction.PassengerIsSensitive | n8n/report/report-generator.js:8-9 | the key test is a substring test: `passenger` is sensitive |
| Redaction.BypassIsSensitive | n8n/report/report-generator.js:8-9 | a word anywhere in the key counts: `bypass` is sensitive |
| Redaction.ApiKeyIsSensitive | n8n/report/report-generator.js:8-9 | the key test ignores case: `apiKey` is sensitive |
| Redaction.WordMakesKeySensitive | n8n/report/report-generator.js:8-9 | any key containing a vocabulary word, in any case, is sensitive |
| Redaction.IndexKeysNotSensitive | n8n/report/report-generator.js:40-42 | array index keys are never sensitive |
| Redaction.SanitizeArray | n8n/report/report-generator.js:32-35 | a non-array gives `[]`; the result is no longer than the input and holds no empty text |
| Redaction.SanitizeEntriesSingle | n8n/report/report-generator.js:34 | one entry gives its sanitised text when that is non-empty, and nothing otherwise, whatever the entry's kind |
| Redaction.SanitizeEntriesAppend | n8n/report/report-generator.js:34 | the entries of a joined list are those of its parts, in order; with the one-entry case this fixes the result for every array |
| Redaction.SanitizeEntriesMembers | n8n/report/report-generator.js:34 | a text is kept exactly when it is non-empty and the sanitised text of some entry |
| Redaction.DropEmptyAppend | n8n/report/report-generator.js:34 | `filter(Boolean)` on a joined list of texts is the filter of each part, joined, in order |
| Redaction.DropEmptyMembers | n8n/report/report-generator.js:34 | `filter(Boolean)` keeps a text exactly when it is in the list and not empty |
| Redaction.DropEmptyKeepsAll | n8n/report/report-generator.js:34 | `filter(Boolean)` leaves a list of non-empty texts as it is |
| Redaction.SanitizeArrayKeepsNonEmptyStrings | n8n/report/report-generator.js:34 | an array of non-empty strings keeps every entry, in order, each sanitised |
| Redaction.WhitespaceEntrySurvives | n8n/report/report-generator.js:34 | `["", "  "]` gives `["  "]`: white space is truthy |
| ValueRedaction.SanitizedValue | n8n/report/report-generator.js:37-54 | arrays stay arrays, objects stay objects, every other value comes back as it is |
| ValueRedaction.SanitizedEntry | n8n/report/report-generator.js:41-51 | a string under a sensitive key becomes `[REDACTED]`, any other string goes through `sanitizeText` |
| ValueRedaction.SanitizeObjectValues | n8n/report/report-generator.js:37-54 | the `forEach` over the entries computes exactly the specification value |
| ValueRedaction.SanitizeEntry | n8n/report/report-generator.js:41-51 | the callback body computes the specified entry |
| ValueRedaction.ShapeKept | n8n/report/report-generator.js:37-54 | the output has the input's shape: same keys in the same order, same array lengths, non-strings unchanged |
| ValueRedaction.SensitiveStringsRedacted | n8n/report/report-generator.js:41-44 | a string directly under a sensitive key is replaced, and its key kept |
| ValueRedaction.SensitiveKeyKeepsStructure | n8n/report/report-generator.js:45-51 | an object under a sensitive key is recursed into and a number kept, not replaced |
| ValueRedaction.TopLevelStringsSanitized | n8n/report/report-generator.js:38-44 | strings of a top-level array go through `sanitizeText` |
| ValueRedaction.NestedArrayStringsUntouched | n8n/report/report-generator.js:38-46 | strings held directly in an array under an object key are not sanitised |
| ValueRedaction.SanitizedAppend | n8n/report/report-generator.js:40-52 | appending a member appends its sanitised counterpart |
| Evidence.KubernetesEvidence | n8n/report/report-generator.js:56-96 | `''` when pod and events are both falsy; otherwise throws exactly when a section that is shown throws: a non-iterable list or a null or undefined entry |
| Evidence.NonIterableSectionThrows | n8n/report/report-generator.js:67-88 | an object with a truthy `length` as `containerStatuses` or as the events makes the formatter throw |
| Evidence.FormatKubernetesEvidence | n8n/report/report-generator.js:56-96 | the `output +=` formatter computes exactly the specification text |
| Evidence.AppendContainers | n8n/report/report-generator.js:67-84 | the containers loop appends the heading and the container block |
| Evidence.AppendEvents | n8n/report/report-generator.js:86-93 | the events loop appends the heading and the block of the last five events |
| Evidence.AppendLines | n8n/report/report-generator.js:69-92 | one `output +=` per entry leaves the rendering of all of them, or the first throw |
| Evidence.ContainerLine | n8n/report/report-generator.js:69-82 | reading a container throws exactly when it is null or undefined |
| Evidence.ContainerRestartsShown | n8n/report/report-generator.js:70-75 | after the name and readiness comes ` (Restarts: n)` exactly when the restart count is a finite number, then the line break |
| Evidence.ContainerStatesOrdered | n8n/report/report-generator.js:77-82 | the terminated line comes before the waiting line, each only when its state is truthy, and they end the container's text |
| Evidence.ContainerBlock | n8n/report/report-generator.js:67-84 | the block throws exactly when some container entry is nullish |
| Evidence.ContainerBlockAppend | n8n/report/report-generator.js:69-83 | containers are rendered in input order |
| Evidence.EventText | n8n/report/report-generator.js:90-91 | the warning icon exactly when the event type is `"Warning"` |
| Evidence.EventBlock | n8n/report/report-generator.js:89-92 | the block throws exactly when some event entry is nullish |
| Evidence.EventBlockAppend | n8n/report/report-generator.js:89-92 | events are rendered in input order |
| Evidence.RecentEvents | n8n/report/report-generator.js:88 | an array gives its last five elements, never more than five |
| Evidence.OlderEventsIgnored | n8n/report/report-generator.js:86-93 | events before the last five change nothing |
| Evidence.FewEventsAllShown | n8n/report/report-generator.js:86-93 | up to five events are all shown, in order, after the heading |
| Evidence.SafeLineNumber | n8n/report/report-generator.js:102 | `Number(lineNumber) \|\| 1`: truthy, the number when it is truthy (negative ones included), else 1 |
| Evidence.StartLine | n8n/report/report-generator.js:103 | `max(1, n - 5)`: at least 1 and at least `n - 5`, and equal to one of them |
| Evidence.CodeLines | n8n/report/report-generator.js:109-113 | one rendered line per snippet line, the i-th rendering snippet line i at index i |
| Evidence.CodeLinesNumbered | n8n/report/report-generator.js:109-113 | the i-th rendered line shows the number `start + i`, carries the marker exactly when that is the target, and ends with snippet line i sanitised |
| Evidence.CodeEvidenceLayout | n8n/report/report-generator.js:98-118 | for a truthy snippet: the file and line header, the rendered lines in snippet order, then the closing fence |
| Evidence.CodeLine | n8n/report/report-generator.js:110-112 | the `>>>` marker exactly when the line's number equals the target; then a space, the number and `: `; it ends with the sanitised text and a line break |
| Evidence.CodeEvidence | n8n/report/report-generator.js:98-117 | empty exactly when the snippet is falsy |
| Evidence.FormatCodeEvidence | n8n/report/report-generator.js:98-117 | the loop over the snippet lines computes exactly the specification text |
| Evidence.TrimFenced | n8n/report/report-generator.js:115-117 | trimming drops only the final line break after the closing fence |
| Evidence.MarkedCountFinite | n8n/report/report-generator.js:109-113 | for a finite target, one line carries the marker when the numbered range holds it, none otherwise |
| Evidence.MarkerPresence | n8n/report/report-generator.js:102-113 | for a finite line number, at most one marker, and one exactly when the range reaches the target |
| Evidence.ShortSnippetUnmarked | n8n/report/report-generator.js:103-113 | a target beyond line 6 with at most five snippet lines has no marker |
| Evidence.InfiniteLineMarksAll | n8n/report/report-generator.js:102-113 | an infinite line number marks every line |
| Evidence.LabelLine | n8n/report/report-generator.js:125-130 | a detail line is present exactly when its value is truthy |
| Evidence.NetworkEvidence | n8n/report/report-generator.js:120-133 | `''` for a falsy input; a string goes through `sanitizeText`; for an object, empty exactly when none of the four fields is truthy |
| Evidence.ShownLines | n8n/report/report-generator.js:125-130 | at most one line per field; none exactly when no field is truthy; every line starts `**` |
| Evidence.NetworkLinesInOrder | n8n/report/report-generator.js:125-132 | the detail lines are the `**Caption:** value` lines of the truthy fields in the order URL, Status, Tempo de resposta, Erro, each followed by a line break |
| Evidence.NetworkEvidenceLines | n8n/report/report-generator.js:120-133 | for an object, split at line breaks the evidence is exactly the shown lines in that order, only the last one trimmed; `''` when none is shown |
| Evidence.NetworkLinesTrimmed | n8n/report/report-generator.js:125-132 | the trimmed detail lines are empty exactly when no field is shown |
| Evidence.StatusZeroOmitted | n8n/report/report-generator.js:126 | a status code of 0 adds no line |
| Report.Normalize | n8n/report/report-generator.js:135-154 | always an allowed value; the lower-cased text when allowed, otherwise the default |
| Report.NormalizeClassification | n8n/report/report-generator.js:135-140 | always one of infrastructure, code, unknown |
| Report.NormalizeSeverity | n8n/report/report-generator.js:142-147 | always one of critical, high, medium, low |
| Report.NormalizeConfidence | n8n/report/report-generator.js:149-154 | always one of alta, média, baixa |
| Report.NormalizeIdempotent | n8n/report/report-generator.js:135-154 | normalising a normalised value changes nothing |
| Report.ClassificationIdempotent | n8n/report/report-generator.js:135-140 | the classification normaliser is idempotent |
| Report.SeverityIdempotent | n8n/report/report-generator.js:142-147 | the severity normaliser is idempotent |
| Report.ConfidenceIdempotent | n8n/report/report-generator.js:149-154 | the confidence normaliser is idempotent |
| Report.NormalizeIgnoresCase | n8n/report/report-generator.js:136-137 | an upper-case spelling of an allowed value normalises to it |
| Report.FirstTruthy | n8n/report/report-generator.js:158-170 | an `a \|\| b \|\| c` chain: the first truthy value, else the default |
| Report.TicketId | n8n/report/report-generator.js:158 | `ticket_id`, else `ticketId`, else the UUID; truthy when the UUID is non-empty |
| Report.PodDescription | n8n/report/report-generator.js:161-165 | the four pod aliases in order, else `null` |
| Report.Events | n8n/report/report-generator.js:167-170 | the three event aliases in order, else `null` |
| Report.KubernetesEvidenceOf | n8n/report/report-generator.js:172-173 | a truthy explicit evidence wins; otherwise the formatter's text when it returns, and a throw exactly when it throws |
| Report.CodeDetail | n8n/report/report-generator.js:175-177 | `code_evidence_detail`, else `code`, else `null` |
| Report.Alias | n8n/report/report-generator.js:183-185 | the camel-case field when truthy, else its snake-case alias |
| Report.Language | n8n/report/report-generator.js:186 | `language`, else `lang`, else `''` |
| Report.CodeEvidenceOf | n8n/report/report-generator.js:179-188 | a string `code_evidence` wins, even empty; otherwise, for a truthy detail, the formatter on file path, line number, snippet and language each under its two spellings; otherwise `''` |
| Report.NetworkEvidenceOf | n8n/report/report-generator.js:190-191 | a truthy explicit evidence wins; otherwise the formatter on `network` |
| Report.TextOr | n8n/report/report-generator.js:201-202 | the sanitised text when non-empty, otherwise exactly the fallback |
| Report.ListOr | n8n/report/report-generator.js:213-218 | the list when non-empty, otherwise the fallback |
| Report.FeedbackUrl | n8n/report/report-generator.js:219-222 | the three spellings in order, else the diagnosis URL of the ticket; always truthy |
| Report.ServiceName | n8n/report/report-generator.js:199 | the given service name when it is truthy, otherwise `serviço não informado` |
| Report.Namespace | n8n/report/report-generator.js:200 | the given namespace when it is truthy, otherwise `namespace não informado` |
| Report.Summary | n8n/report/report-generator.js:201-202 | the sanitised summary when that is non-empty, otherwise the fixed request to review the evidence |
| Report.RootCause | n8n/report/report-generator.js:211-212 | the sanitised root cause when that is non-empty, otherwise the fixed not-identified notice |
| Report.Suggestions | n8n/report/report-generator.js:193-215 | the sanitised `suggestions` when any survive, otherwise the two default suggestions |
| Report.NextSteps | n8n/report/report-generator.js:194-218 | the sanitised `next_steps \|\| nextSteps` when any survive, otherwise the two default steps |
| Report.ErrorText | n8n/report/report-generator.js:206 | the sanitised `error_message` when truthy, otherwise exactly `Erro não informado` |
| Report.BuildReportData | n8n/report/report-generator.js:156-224 | throws exactly when the Kubernetes formatter throws; otherwise the record, its Kubernetes evidence the chosen one sanitised |
| Report.ReportFieldsFromInput | n8n/report/report-generator.js:157-222 | every other field is its field function of the sanitised input: id, timestamp or clock reading, service, namespace, summary, the enums, root cause, both lists and the feedback link |
| Report.ReportTextFields | n8n/report/report-generator.js:206-210 | the error text with its fallback, the stack trace sanitised (`''` when missing), and the chosen code and network evidence sanitised |
| Report.ReportEnumsAllowed | n8n/report/report-generator.js:203-205 | the three enumerated fields always hold allowed values |
| Report.ReportFallbacksFilled | n8n/report/report-generator.js:199-222 | every field with a fallback is non-empty, and the lists have only non-empty entries |
| Report.ReportIdentifiersPresent | n8n/report/report-generator.js:158-159 | with a non-empty UUID and clock reading, the id and timestamp are truthy |
| Report.TicketIdPrecedence | n8n/report/report-generator.js:158 | `ticket_id` wins over `ticketId`, which wins over the UUID |
| Report.FeedbackUrlFallback | n8n/report/report-generator.js:219-222 | without a link the record points at `https://feedback.local/diagnosis/<ticket id>` |
| Report.EmptyCodeEvidenceWins | n8n/report/report-generator.js:179-180 | an empty `code_evidence` string still wins |
| Report.EmptyKubernetesEvidenceLoses | n8n/report/report-generator.js:172-173 | an empty `kubernetes_evidence` is falsy, so the formatter runs |
| Report.BlankSuggestionKept | n8n/report/report-generator.js:193-215 | a white-space-only suggestion keeps the default list away |
| Tickets.QueryNumber | api/src/routes/tickets.ts:24-61 | `Number(v)` when finite: `undefined` gives none, `null` gives 0, a finite number itself |
| Tickets.QueryNumberNatText | api/src/routes/tickets.ts:29 | the decimal text of a whole number reads back as that number |
| Tickets.DecimalTextOfDigits | api/src/routes/tickets.ts:29 | a string of digits reads as its decimal value |
| Tickets.ParseLimit | api/src/routes/tickets.ts:24-35 | 20 when blank; otherwise accepted exactly when a positive finite number, then `min(v, 100)`; always in (0, 100] |
| Tickets.ParseOffset | api/src/routes/tickets.ts:37-48 | 0 when blank; otherwise accepted exactly when finite and non-negative, and then unchanged |
| Tickets.ParsePage | api/src/routes/tickets.ts:50-61 | none when blank; otherwise accepted exactly when positive and finite, then its floor |
| Tickets.Floor | api/src/routes/tickets.ts:60 | the greatest integer not above the value |
| Tickets.Ceil | api/src/routes/tickets.ts:147 | the least integer not below the value |
| Tickets.UuidGroups | api/src/routes/tickets.ts:7 | an accepted id is five hexadecimal groups of 8, 4, 4, 4 and 12 digits joined by dashes |
| Tickets.UuidFromGroups | api/src/routes/tickets.ts:7 | five such groups joined by dashes are accepted, in either case |
| Tickets.GetTicket | api/src/routes/tickets.ts:64-88 | a bad id is a 400 before any statement; no row is a 404; a failed query is a 500; otherwise the first row |
| Tickets.PageOffset | api/src/routes/tickets.ts:112-114 | `(page - 1) * limit` for a positive page, page 1 when none, 0 otherwise |
| Tickets.ChosenOffset | api/src/routes/tickets.ts:109-114 | a given `offset` is parsed, otherwise the page's first row |
| Tickets.ReportedPage | api/src/routes/tickets.ts:119 | `_page` when given; otherwise the page whose rows contain the offset |
| Tickets.OffsetInPage | api/src/routes/tickets.ts:119 | `floor(offset / limit) + 1` is the page whose row range holds the offset |
| Tickets.WholePageRoundTrip | api/src/routes/tickets.ts:112-119 | the first row of page p maps back to page p |
| Tickets.PlanList | api/src/routes/tickets.ts:92-119 | the checks in the route's order, each with its own detail once the earlier ones pass: a non-string service, then a bad `limit ?? _size`, then a given but invalid `_page`, then a bad offset; a request is accepted exactly when all four pass, and a plan has a limit in (0, 100], a non-negative offset and the given service |
| Tickets.ListDefaults | api/src/routes/tickets.ts:92-119 | no parameters: twenty rows from the first, page 1 |
| Tickets.LimitOverridesSize | api/src/routes/tickets.ts:99 | with `limit` given, `_size` is not read |
| Tickets.PageSelectsItsRows | api/src/routes/tickets.ts:104-119 | a whole page without an offset selects that page's first row and reports that page |
| Tickets.FractionalPageIsPageZero | api/src/routes/tickets.ts:55-119 | a page between 0 and 1 is accepted, starts at row 0 and is reported as page 0 |
| Tickets.TotalPages | api/src/routes/tickets.ts:146-147 | at least 1, enough pages for the total, and no more than needed |
| Tickets.BuildListStatement | api/src/routes/tickets.ts:121-133 | the text and parameters built step by step equal the list statement |
| Tickets.ListPlaceholders | api/src/routes/tickets.ts:127-133 | each placeholder numbers the parameter it is meant for: service `$1`, then limit and offset |
| Tickets.CountStatement | api/src/routes/tickets.ts:138-143 | the count is filtered by service exactly when the list is |
| Tickets.ListTickets | api/src/routes/tickets.ts:91-162 | a bad parameter is a 400 before any statement; otherwise both statements, then the page body or a 500 |
| Tickets.RecordFeedback | api/src/routes/tickets.ts:165-201 | a missing body throws; then the id check, then the boolean check; the update binds useful, applied, comment or NULL, and the id |
| Tickets.IdCheckedBeforeBody | api/src/routes/tickets.ts:169-180 | a bad id is reported even when the body is also bad |
| Tickets.MissingCommentIsNull | api/src/routes/tickets.ts:189 | a missing comment is stored as SQL NULL |
| KubernetesTool.Defined | mcp-server/src/tools/kubernetes.ts:37-39 | `v ?? undefined`: never null, and the value itself when not nullish |
| KubernetesTool.MapEvent | mcp-server/src/tools/kubernetes.ts:35-45 | type, reason and message copied with null made undefined; a date becomes its ISO text, anything else is kept |
| KubernetesTool.MapEvents | mcp-server/src/tools/kubernetes.ts:68 | events mapped one to one, in order |
| KubernetesTool.MapContainer | mcp-server/src/tools/kubernetes.ts:62-67 | name and readiness copied; a missing restart count is 0; a falsy state becomes undefined |
| KubernetesTool.MapContainers | mcp-server/src/tools/kubernetes.ts:61-67 | containers mapped one to one, in order |
| KubernetesTool.MapPodDescription | mcp-server/src/tools/kubernetes.ts:47-70 | the pod's fields with null made undefined, the start time as ISO text, the containers and events mapped |
| KubernetesTool.NullTimestampTreatedDifferently | mcp-server/src/tools/kubernetes.ts:43-59 | a null start time is dropped from a pod but a null event timestamp is kept |
| KubernetesTool.ContainersOneToOne | mcp-server/src/tools/kubernetes.ts:61-67 | the i-th container maps to the i-th summary, with restart count 0 when missing |
| KubernetesTool.DescribePod | mcp-server/src/tools/kubernetes.ts:84-99 | events are selected by `involvedObject.name=<pod>`; missing items mean no events |
| KubernetesTool.GetEvents | mcp-server/src/tools/kubernetes.ts:101-113 | a field selector exactly when the pod name is given and non-empty |
| KubernetesTool.Annotations | mcp-server/src/tools/kubernetes.ts:126 | the deployment's annotations, `{}` when it has none |
| KubernetesTool.GetDeployment | mcp-server/src/tools/kubernetes.ts:115-137 | project metadata is present exactly when the annotation is, and equals it; replica counts copied |
| KubernetesTool.NoMetadataNoProjectInfo | mcp-server/src/tools/kubernetes.ts:126-132 | no metadata: empty annotations and no project metadata |
| KubernetesTool.LessIrreflexive | mcp-server/src/tools/kubernetes.ts:75 | the default string order is irreflexive |
| KubernetesTool.LessTransitive | mcp-server/src/tools/kubernetes.ts:75 | the default string order is transitive |
| KubernetesTool.LessTotal | mcp-server/src/tools/kubernetes.ts:75 | any two distinct strings are ordered |
| KubernetesTool.Dedup | mcp-server/src/tools/kubernetes.ts:75 | `Array.from(new Set(s))`: no duplicates, the same elements |
| KubernetesTool.Sort | mcp-server/src/tools/kubernetes.ts:75 | strictly increasing, the same length and the same elements |
| KubernetesTool.SortedUnique | mcp-server/src/tools/kubernetes.ts:75 | two strictly sorted lists with the same elements are equal |
| KubernetesTool.SortedKeyUnion | mcp-server/src/tools/kubernetes.ts:72-82 | strictly sorted, and holding exactly the keys of either object |
| KubernetesTool.SortedKeyUnionSymmetric | mcp-server/src/tools/kubernetes.ts:72-82 | the order the two objects are read in does not matter |
| KubernetesTool.ConfigMapKeys | mcp-server/src/tools/kubernetes.ts:72-76 | sorted, duplicate-free union of the `data` and `binaryData` keys |
| KubernetesTool.SecretKeys | mcp-server/src/tools/kubernetes.ts:78-82 | sorted, duplicate-free union of the `data` and `stringData` keys, names only |
| KubernetesTool.SharedSecretKeyOnce | mcp-server/src/tools/kubernetes.ts:78-82 | a key in both parts is listed once |
| PosixPath.ResolveFrom | mcp-server/src/tools/git.ts:11-12 | `path.resolve` always gives a normalised path |
| PosixPath.Basename | mcp-server/src/tools/git.ts:24 | the last segment, or `''` for `/` |
| PosixPath.RenderResolves | mcp-server/src/tools/git.ts:11-12 | resolving the text of a normalised path gives it back |
| PosixPath.TextInsideIsPrefix | mcp-server/src/tools/git.ts:14 | for a root other than `/`, the text test is segment containment |
| PosixPath.RootContainsOnlyItself | mcp-server/src/tools/git.ts:14 | under the text test, `/` contains only itself |
| GitTool.ResolveInsideRoot | mcp-server/src/tools/git.ts:10-19 | the resolved target, or the traversal error |
| GitTool.ContainedIffBelowRoot | mcp-server/src/tools/git.ts:10-19 | for a root other than `/`, accepted exactly when the target resolves at or below the root |
| GitTool.SlashRootAcceptsOnlyItself | mcp-server/src/tools/git.ts:14 | a root resolving to `/` accepts only `/` |
| GitTool.PlainNameAccepted | mcp-server/src/tools/git.ts:57-60 | a plain file name resolves inside the root |
| GitTool.ParentEscapeRejected | mcp-server/src/tools/git.ts:10-19 | `../<name>` is refused unless it names the root itself |
| GitTool.ReadFile | mcp-server/src/tools/git.ts:57-60 | the containment check first, then the file's text or the missing-file error |
| GitTool.ListFiles | mcp-server/src/tools/git.ts:62-70 | refused by the containment check exactly when `directory \|\| "."` escapes; otherwise one name per entry in order, directories ending in `/` |
| GitTool.EmptyDirectoryListsRoot | mcp-server/src/tools/git.ts:66 | an empty directory lists the root |
| GitTool.TempPathIff | mcp-server/src/tools/git.ts:21-30 | the guard holds exactly when the base name has the prefix and the path lies strictly below the temporary directory |
| GitTool.GuardedPathBelowTemp | mcp-server/src/tools/git.ts:21-30 | a guarded path lies strictly below the temporary directory |
| GitTool.RemoveTree | mcp-server/src/tools/git.ts:77 | recursive removal takes exactly the directory and what lies below it |
| GitTool.RemoveTreeKeepsParents | mcp-server/src/tools/git.ts:77 | removing a tree leaves every remaining directory's parents present |
| GitTool.Workspace.constructor | mcp-server/src/tools/git.ts:23 | the workspace holds the temporary directory and its parents |
| GitTool.Workspace.CloneRepo | mcp-server/src/tools/git.ts:32-55 | the fixed clone options and SSH command; success adds the new directory, failure removes it and prefixes the error |
| GitTool.Workspace.CleanupRepo | mcp-server/src/tools/git.ts:72-78 | a refused path changes nothing; otherwise the tree is removed, and all of it lay strictly below the temporary directory |
| GitTool.ClonedDirectoryIsTemporary | mcp-server/src/tools/git.ts:21-33 | a cloned directory passes the cleanup guard |
| NetworkTool.NormalizeTimeout | mcp-server/src/tools/network.ts:13-19 | always positive; the input when it is a positive number, otherwise 10000 |
| NetworkTool.NormalizeTimeoutIdempotent | mcp-server/src/tools/network.ts:13-19 | normalising a normalised timeout changes nothing |
| NetworkTool.StringTimeoutIgnored | mcp-server/src/tools/network.ts:14 | a numeric string gives the default |
| NetworkTool.NormalizeMethod | mcp-server/src/tools/network.ts:21-24 | always GET, POST or HEAD; the upper-cased method when allowed; GET when absent or not allowed |
| NetworkTool.NormalizeMethodIdempotent | mcp-server/src/tools/network.ts:21-24 | normalising a normalised method changes nothing |
| NetworkTool.MethodIgnoresCase | mcp-server/src/tools/network.ts:22 | methods that agree once upper-cased normalise alike |
| NetworkTool.ResolveErrorCode | mcp-server/src/tools/network.ts:26-33 | undefined for a non-object, its own code, else its cause's code |
| NetworkTool.MapErrorMessage | mcp-server/src/tools/network.ts:43-63 | never empty; abort first, then ENOTFOUND with or without host, ECONNREFUSED with the URL, ECONNRESET, else the message or `Unknown error` |
| NetworkTool.CauseCodeRecognised | mcp-server/src/tools/network.ts:32-57 | a code carried only by the cause is recognised |
| NetworkTool.ThrownStringUnknown | mcp-server/src/tools/network.ts:43-63 | a thrown string reports `Unknown error` |
| NetworkTool.FromEntries | mcp-server/src/tools/network.ts:90 | the header names given, and the value of the last entry for each |
| NetworkTool.HttpRequest | mcp-server/src/tools/network.ts:65-102 | the request uses the normalised method and timeout; status code null exactly on failure, the only path with an error |
| NetworkTool.AbortReportsEffectiveTimeout | mcp-server/src/tools/network.ts:47-99 | an aborted request reports the timeout actually used |
| SshConfig.EnvVar | mcp-server/src/config/ssh.ts:22 | a value exactly when the variable is set, even empty |
| SshConfig.ResolveHomePath | mcp-server/src/config/ssh.ts:10-18 | anything other than `~` and `~/x` unchanged, `~user` included; `~` and `~/x` become absolute |
| SshConfig.HomeRelativeExpanded | mcp-server/src/config/ssh.ts:11-13 | `~/a/b` is the home directory joined with `a/b` |
| SshConfig.HomeItself | mcp-server/src/config/ssh.ts:14-16 | `~` alone is the home directory |
| SshConfig.GithubKeyPath | mcp-server/src/config/ssh.ts:20-24 | GITHUB_SSH_KEY_PATH, else SSH_PRIVATE_KEY_PATH, else the default, expanded |
| SshConfig.AzureKeyPath | mcp-server/src/config/ssh.ts:26-28 | AZURE_SSH_KEY_PATH, else the default, expanded |
| SshConfig.ConfigPath | mcp-server/src/config/ssh.ts:30-32 | SSH_CONFIG_PATH, else the default, expanded |
| SshConfig.EmptyGithubVariableWins | mcp-server/src/config/ssh.ts:22 | a variable set to `''` still wins |
| SshConfig.DefaultGithubKeyPath | mcp-server/src/config/ssh.ts:6-24 | with nothing set, `<home>/.ssh/github_deploy_key` |
| SshConfig.DefaultAzureKeyPath | mcp-server/src/config/ssh.ts:7-28 | with nothing set, `<home>/.ssh/azure_deploy_key` |
| SshConfig.DefaultConfigPath | mcp-server/src/config/ssh.ts:8-32 | with nothing set, `<home>/.ssh/config` |
| SshConfig.ConfigLines | mcp-server/src/config/ssh.ts:34-46 | a github.com block with the GitHub key, then an ssh.dev.azure.com block with the Azure key, each with host checking off |
| SshConfig.SshCommand | mcp-server/src/config/ssh.ts:61-64 | `ssh -F ` and the given path, or the configuration path when none is given |
| Workflow.Payload | n8n/workflows/script.js:2-3 | the item's `body` when not nullish, else the item |
| Workflow.MissingFields | n8n/workflows/script.js:1-4 | exactly the falsy required fields, in their listed order |
| Workflow.Spread | n8n/workflows/script.js:9 | an object's members; nothing for null, undefined, numbers and booleans |
| Workflow.SetMember | n8n/workflows/script.js:10-14 | the key then holds the new value and every other key is unchanged |
| Workflow.ErrorMessage | n8n/workflows/script.js:12-14 | `null` exactly when nothing is missing, otherwise the prefix and the fields joined by `, ` |
| Workflow.Validate | n8n/workflows/script.js:6-17 | a single item wrapping the validated payload under `json` |
| Workflow.SetThreeFields | n8n/workflows/script.js:10-14 | the object literal's `isValid`, `missing` and `errorMessage` read back as assigned, whatever the payload held |
| Workflow.ValidityFields | n8n/workflows/script.js:10-14 | `isValid` is whether nothing is missing; `missing` and `errorMessage` as computed |
| Workflow.PayloadFieldsKept | n8n/workflows/script.js:9-14 | every other payload field passes through; the three added keys replace any of the payload's own |
| Workflow.NoneMissingIff | n8n/workflows/script.js:4 | the filter leaves nothing exactly when every listed field is truthy |
| Workflow.ValidIffRequiredPresent | n8n/workflows/script.js:1-10 | valid exactly when all four required fields are truthy |
| Workflow.ItemWithoutBody | n8n/workflows/script.js:3 | an item without a body is validated as it stands |

## Left out

- Numbers are integers plus `NaN` and the two infinities everywhere except in the ticket
  API's query parameters, which are exact rationals. `Number()` of a string reads optional
  white space, then a sign and decimal digits or `Infinity` with an optional sign; fractions,
  exponents, hexadecimal, octal and binary literals give `NaN` here, and `-0` is not
  modelled. Floating-point rounding is not modelled.
- Objects keep their members in insertion order. JavaScript lists integer-like keys first, in
  ascending order, when it spreads, enumerates or serialises an object; only the order of
  members differs, never the value found under a key.
- Case folding is ASCII. Unicode `toUpperCase` maps `ſ` (U+017F) to `S`, so `poſt` would
  become `POST`; the model leaves such letters unchanged.
- String order is by character code over Dafny characters. JavaScript compares UTF-16 code
  units, which differs only for characters outside the Basic Multilingual Plane.
- Objects are ordered member lists, and property lookup takes the first member with the key.
  Duplicate keys, prototype properties and the `__proto__` key are not modelled.
- `renderReport`, the Handlebars template and its `increment` helper are not modelled: a
  foreign library and a template file.
- `randomUUID()`, `new Date().toISOString()` and `Date.now()` are parameters.
- The HTTP server (Express routing, `sendProblem`'s response building and its `instance`
  URL), the database pool and SQL execution are outside the model. A handler's statements
  and its reply are data, and a statement's outcome is a parameter. `Thrown` stands for an
  exception left to the framework.
- Tickets.ParseLimit, Tickets.ParseOffset, Tickets.ParsePage: values are rationals, not
  IEEE doubles, so rounding of long decimals is not modelled.
- The Kubernetes client calls and configuration loading are outside the model. A response is
  a parameter, and a `Date` is carried as its ISO text.
- `git clone`, `mkdtemp`, `readFile`, `readdir` and `rm` are outside the model. The clone
  outcome, the `mkdtemp` suffix, the files and the directory entries are parameters; the
  disk is the set of directories of `GitTool.Workspace`. The 30-second clone timeout is not
  modelled.
- GitTool.Workspace.CloneRepo: `ensureSshConfig` writing the configuration file is not
  modelled; the SSH command is the one for the configured path.
- `ensureSshConfig` and `setupSSHAgent` are not modelled: file writes, directory creation
  and running `ssh-add`. `homedir()` is a parameter and is taken to be a normalised absolute
  path.
- `fetch`, `AbortController` and `setTimeout` are outside the model. The fetch outcome and
  the clock readings are parameters. The host name the URL parser would give is a
  parameter, with no host meaning the URL does not parse.
- Evidence.NetworkEvidenceLines: the line-by-line statement is made for field values
  without line breaks, since a value holding one splits into more lines;
  `Evidence.NetworkLinesInOrder` states the text for every value.
- `$input.first()` in the workflow is the item parameter.
- Workflow.Spread: a string payload spreads one member per character, and an array one per
  element. The contract states only the object and the empty cases.

## Where the code and its description differ

The model follows the code in each case:

- `buildReportData` is not total. `formatKubernetesEvidence` throws a TypeError on a null
  or undefined entry in `containerStatuses` or in the rendered events. It also throws when
  either list is an object with a truthy `length`, which passes the section test but cannot
  be iterated or sliced. So `Report.BuildReportData` returns an outcome that can be a
  throw.
- `sanitizeText` is not idempotent. `Redaction.SanitizeTextNotIdempotent` exhibits a text
  that loses more on a second pass.
- The environment-style pattern is flagged `gi`, so it matches keys in any case, not only
  upper case.
- A `_page` strictly between 0 and 1 is accepted, starts at row 0 and is reported as page 0
  (`Tickets.FractionalPageIsPageZero`).
