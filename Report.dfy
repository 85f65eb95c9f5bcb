/**
 * The normalisers and `buildReportData` (n8n/report/report-generator.js,
 * lines 135-223): the report record the template is filled with, built from
 * the sanitized input by alias resolution, precedence between explicit and
 * formatted evidence, and fixed fallbacks. The ticket id generator and the
 * clock are parameters.
 */
module Report {
  import opened Js
  import opened Redaction
  import opened ValueRedaction
  import opened Evidence

  // ---------------------------------------------------------------------------
  // First truthy value

  /** The first truthy value of the list, or the default when there is none:
      what a chain `a || b || ... || default` evaluates to. */
  function FirstTruthy(vs: seq<Json>, default: Json): (r: Json)
    ensures (exists i :: 0 <= i < |vs| && Truthy(vs[i])) ==>
      (exists i :: 0 <= i < |vs| && Truthy(vs[i]) && r == vs[i]
        && forall j :: 0 <= j < i ==> !Truthy(vs[j]))
    ensures (forall i :: 0 <= i < |vs| ==> !Truthy(vs[i])) ==> r == default
    decreases |vs|
  {
    if |vs| == 0 then default
    else if Truthy(vs[0]) then vs[0]
    else
      var r := FirstTruthy(vs[1..], default);
      assert forall i :: 1 <= i < |vs| ==> vs[i] == vs[1..][i - 1];
      r
  }

  /** Three or four alternatives, as the `||` chains write them. */
  lemma FirstTruthyOfThree(a: Json, b: Json, c: Json, default: Json)
    ensures FirstTruthy([a, b, c], default) == Or(Or(Or(a, b), c), default)
  {
    var vs := [a, b, c];
    assert vs[1..] == [b, c] && vs[1..][1..] == [c] && vs[1..][1..][1..] == [];
    if Truthy(a) {
      assert FirstTruthy(vs, default) == a;
    } else if Truthy(b) {
      assert FirstTruthy(vs, default) == FirstTruthy([b, c], default) == b;
    } else {
      assert FirstTruthy(vs, default) == FirstTruthy([c], default);
    }
  }

  lemma FirstTruthyOfFour(a: Json, b: Json, c: Json, d: Json, default: Json)
    ensures FirstTruthy([a, b, c, d], default) == Or(Or(Or(Or(a, b), c), d), default)
  {
    assert [a, b, c, d][1..] == [b, c, d];
    FirstTruthyOfThree(b, c, d, default);
  }

  // ---------------------------------------------------------------------------
  // Normalisers (lines 135-154)

  const Classifications: seq<string> := ["infrastructure", "code", "unknown"]
  const Severities: seq<string> := ["critical", "high", "medium", "low"]
  const Confidences: seq<string> := ["alta", "média", "baixa"]

  /** `String(value || default).toLowerCase()`, kept when it is one of the
      allowed values and replaced by the default otherwise. */
  function Normalize(v: Json, allowed: seq<string>, default: string): (r: string)
    requires default in allowed
    ensures r in allowed
    ensures Lower(ToStr(Or(v, Str(default)))) in allowed ==> r == Lower(ToStr(Or(v, Str(default))))
    ensures Lower(ToStr(Or(v, Str(default)))) !in allowed ==> r == default
  {
    var normalized := Lower(ToStr(Or(v, Str(default))));
    if normalized in allowed then normalized else default
  }

  /** `normalizeClassification(value)` */
  function NormalizeClassification(v: Json): (r: string)
    ensures r in Classifications
  {
    Normalize(v, Classifications, "unknown")
  }

  /** `normalizeSeverity(value)` */
  function NormalizeSeverity(v: Json): (r: string)
    ensures r in Severities
  {
    Normalize(v, Severities, "medium")
  }

  /** `normalizeConfidence(value)` */
  function NormalizeConfidence(v: Json): (r: string)
    ensures r in Confidences
  {
    Normalize(v, Confidences, "média")
  }

  lemma {:induction false} LowerTwice(s: string)
    ensures Lower(Lower(s)) == Lower(s)
  {
    var once := Lower(s);
    assert forall i :: 0 <= i < |s| ==> LowerChar(once[i]) == once[i];
  }

  /** No ASCII upper-case letter in `s`. */
  predicate NoUpper(s: string) {
    forall i :: 0 <= i < |s| ==> !('A' <= s[i] <= 'Z')
  }

  lemma LowerKeepsLowerCase(s: string)
    requires NoUpper(s)
    ensures Lower(s) == s
  {
  }

  /** Normalising a normalised value changes nothing, when the default is in
      lower case and no allowed value is empty. */
  lemma NormalizeIdempotent(v: Json, allowed: seq<string>, default: string)
    requires default in allowed && Lower(default) == default
    requires forall w :: w in allowed ==> |w| > 0
    ensures var r := Normalize(v, allowed, default);
      Normalize(Str(r), allowed, default) == r
  {
    var r := Normalize(v, allowed, default);
    assert Or(Str(r), Str(default)) == Str(r);
    LowerTwice(ToStr(Or(v, Str(default))));
  }

  lemma ClassificationIdempotent(v: Json)
    ensures NormalizeClassification(Str(NormalizeClassification(v))) == NormalizeClassification(v)
  {
    LowerKeepsLowerCase("unknown");
    NormalizeIdempotent(v, Classifications, "unknown");
  }

  lemma SeverityIdempotent(v: Json)
    ensures NormalizeSeverity(Str(NormalizeSeverity(v))) == NormalizeSeverity(v)
  {
    LowerKeepsLowerCase("medium");
    NormalizeIdempotent(v, Severities, "medium");
  }

  lemma ConfidenceIdempotent(v: Json)
    ensures NormalizeConfidence(Str(NormalizeConfidence(v))) == NormalizeConfidence(v)
  {
    LowerKeepsLowerCase("média");
    NormalizeIdempotent(v, Confidences, "média");
  }

  /** Case does not matter: an upper-case spelling of an allowed value
      normalises to it. */
  lemma NormalizeIgnoresCase(w: string, allowed: seq<string>, default: string)
    requires default in allowed && w in allowed && |w| > 0 && Lower(w) == w
    ensures Normalize(Str(Upper(w)), allowed, default) == w
  {
    assert forall i :: 0 <= i < |w| ==> LowerChar(UpperChar(w[i])) == w[i] by {
      forall i | 0 <= i < |w| ensures LowerChar(UpperChar(w[i])) == w[i] {
        assert LowerChar(w[i]) == w[i];
      }
    }
    assert Lower(Upper(w)) == w;
  }

  // ---------------------------------------------------------------------------
  // buildReportData (lines 156-223)

  /** The record handed to the template. Fields the source copies from the
      input without conversion keep their JavaScript value. */
  datatype ReportData = ReportData(
    ticketId: Json,
    timestamp: Json,
    serviceName: Json,
    namespace: Json,
    summary: string,
    classification: string,
    severity: string,
    confidence: string,
    errorMessage: string,
    stackTrace: string,
    kubernetesEvidence: string,
    codeEvidence: string,
    networkEvidence: string,
    rootCause: string,
    suggestions: seq<string>,
    nextSteps: seq<string>,
    feedbackUrl: Json)

  const DefaultSuggestions: seq<string> :=
    ["Revisar logs completos e métricas do serviço", "Validar configurações e limites de recursos"]
  const DefaultNextSteps: seq<string> :=
    ["Confirmar correção em ambiente de homologação", "Monitorar o serviço após o ajuste"]
  const FeedbackBase: string := "https://feedback.local/diagnosis/"
  const ErrorFallback: string := "Erro não informado"
  const ServicePlaceholder: string := "serviço não informado"
  const NamespacePlaceholder: string := "namespace não informado"
  const SummaryFallback: string := "Resumo não fornecido; revisar evidências coletadas."
  const RootCauseFallback: string := "Causa raiz não identificada automaticamente."

  /** `sanitizeObjectValues(input || {})` */
  function SanitizedInput(input: Json): Json {
    SanitizedValue(Or(input, Obj([])))
  }

  /** Line 158: `ticket_id`, else `ticketId`, else a fresh UUID. */
  function TicketId(s: Json, uuid: string): (r: Json)
    ensures r == FirstTruthy([Get(s, "ticket_id"), Get(s, "ticketId")], Str(uuid))
    ensures |uuid| > 0 ==> Truthy(r)
  {
    var vs := [Get(s, "ticket_id"), Get(s, "ticketId")];
    assert vs[1..] == [vs[1]] && vs[1..][1..] == [];
    Or(Or(Get(s, "ticket_id"), Get(s, "ticketId")), Str(uuid))
  }

  /** Lines 161-165: the pod description under its four aliases, in order. */
  function PodDescription(s: Json): (r: Json)
    ensures r == FirstTruthy([Get(s, "pod_description"), Get(s, "kubernetes_pod_description"),
      Get(Get(s, "kubernetes"), "podDescription"), Get(Get(s, "kubernetes"), "pod")], Null)
  {
    FirstTruthyOfFour(Get(s, "pod_description"), Get(s, "kubernetes_pod_description"),
      Get(Get(s, "kubernetes"), "podDescription"), Get(Get(s, "kubernetes"), "pod"), Null);
    Or(Or(Or(Or(Get(s, "pod_description"), Get(s, "kubernetes_pod_description")),
      Get(Get(s, "kubernetes"), "podDescription")), Get(Get(s, "kubernetes"), "pod")), Null)
  }

  /** Lines 167-170: the events under their three aliases, in order. */
  function Events(s: Json): (r: Json)
    ensures r == FirstTruthy([Get(s, "events"), Get(s, "kubernetes_events"),
      Get(Get(s, "kubernetes"), "events")], Null)
  {
    FirstTruthyOfThree(Get(s, "events"), Get(s, "kubernetes_events"), Get(Get(s, "kubernetes"), "events"), Null);
    Or(Or(Or(Get(s, "events"), Get(s, "kubernetes_events")), Get(Get(s, "kubernetes"), "events")), Null)
  }

  /** Lines 172-173: an explicit, truthy `kubernetes_evidence` wins; otherwise
      the evidence is formatted, which may throw. */
  function KubernetesEvidenceOf(s: Json): (r: Outcome<Json>)
    ensures Truthy(Get(s, "kubernetes_evidence")) ==> r == Returns(Get(s, "kubernetes_evidence"))
    ensures r.ThrowsTypeError? <==>
      !Truthy(Get(s, "kubernetes_evidence")) && KubernetesEvidence(PodDescription(s), Events(s)).ThrowsTypeError?
    ensures var formatted := KubernetesEvidence(PodDescription(s), Events(s));
      !Truthy(Get(s, "kubernetes_evidence")) && formatted.Returns? ==> r == Returns(Str(formatted.value))
  {
    var explicit := Get(s, "kubernetes_evidence");
    if Truthy(explicit) then Returns(explicit)
    else
      var formatted := KubernetesEvidence(PodDescription(s), Events(s));
      if formatted.ThrowsTypeError? then ThrowsTypeError else Returns(Str(formatted.value))
  }

  /** Lines 175-177: the code detail object, under either of two keys. */
  function CodeDetail(s: Json): (r: Json)
    ensures r == FirstTruthy([Get(s, "code_evidence_detail"), Get(s, "code")], Null)
  {
    Or(Or(Get(s, "code_evidence_detail"), Get(s, "code")), Null)
  }

  /** A field of the code detail under its camel-case key or its snake-case
      alias (`detail.filePath || detail.file_path`). */
  function Alias(detail: Json, key: string, alias: string): (r: Json)
    ensures r == FirstTruthy([Get(detail, key), Get(detail, alias)], Get(detail, alias))
  {
    Or(Get(detail, key), Get(detail, alias))
  }

  /** Line 186: the language, under either key, else the empty string. */
  function Language(detail: Json): (r: Json)
    ensures r == FirstTruthy([Get(detail, "language"), Get(detail, "lang")], Str(""))
  {
    Or(Or(Get(detail, "language"), Get(detail, "lang")), Str(""))
  }

  /** Lines 179-188: a string `code_evidence` wins, even the empty one;
      otherwise the code detail is formatted, each field under its two
      spellings and the language defaulting to the empty string. */
  function CodeEvidenceOf(s: Json): (r: string)
    ensures Get(s, "code_evidence").Str? ==> r == Get(s, "code_evidence").s
    ensures var detail := CodeDetail(s);
      !Get(s, "code_evidence").Str? && Truthy(detail) ==> r == CodeEvidence(
        Alias(detail, "filePath", "file_path"), Alias(detail, "lineNumber", "line_number"),
        Alias(detail, "codeSnippet", "code_snippet"), Language(detail))
    ensures (!Get(s, "code_evidence").Str?
      && !Truthy(Get(s, "code_evidence_detail")) && !Truthy(Get(s, "code"))) ==> r == ""
  {
    var explicit := Get(s, "code_evidence");
    if explicit.Str? then explicit.s
    else
      var detail := CodeDetail(s);
      if Truthy(detail) then
        CodeEvidence(
          Alias(detail, "filePath", "file_path"), Alias(detail, "lineNumber", "line_number"),
          Alias(detail, "codeSnippet", "code_snippet"), Language(detail))
      else ""
  }

  /** Lines 190-191: a truthy `network_evidence` wins; otherwise the `network`
      object is formatted. */
  function NetworkEvidenceOf(s: Json): (r: Json)
    ensures Truthy(Get(s, "network_evidence")) ==> r == Get(s, "network_evidence")
    ensures !Truthy(Get(s, "network_evidence")) ==> r == Str(NetworkEvidence(Or(Get(s, "network"), Null)))
  {
    Or(Get(s, "network_evidence"), Str(NetworkEvidence(Or(Get(s, "network"), Null))))
  }

  /** Line 206: the sanitized `error_message`, or a fixed notice when there
      is none; the notice itself passes through sanitizing unchanged. */
  function ErrorText(s: Json): (r: string)
    ensures Truthy(Get(s, "error_message")) ==> r == SanitizeText(Get(s, "error_message"))
    ensures !Truthy(Get(s, "error_message")) ==> r == ErrorFallback
  {
    var message := Get(s, "error_message");
    if Truthy(message) then SanitizeText(message)
    else
      NoTelltaleIsPlain(ErrorFallback);
      SanitizeTextKeepsPlainText(ErrorFallback);
      SanitizeText(Str(ErrorFallback))
  }

  /** `sanitizeText(x) || fallback` */
  function TextOr(v: Json, fallback: string): (r: string)
    ensures |fallback| > 0 ==> |r| > 0
    ensures |SanitizeText(v)| > 0 ==> r == SanitizeText(v)
    ensures |SanitizeText(v)| == 0 ==> r == fallback
  {
    var text := SanitizeText(v);
    if |text| > 0 then text else fallback
  }

  /** `list.length ? list : fallback` */
  function ListOr(list: seq<string>, fallback: seq<string>): (r: seq<string>)
    ensures |list| > 0 ==> r == list
    ensures |list| == 0 ==> r == fallback
    ensures (forall i :: 0 <= i < |list| ==> |list[i]| > 0) && (forall i :: 0 <= i < |fallback| ==> |fallback[i]| > 0)
      ==> forall i :: 0 <= i < |r| ==> |r[i]| > 0
  {
    if |list| > 0 then list else fallback
  }

  /** The returned record, once the Kubernetes evidence is known. */
  function Assemble(s: Json, uuid: string, now: string, kubernetes: Json): ReportData
  {
    var ticketId := TicketId(s, uuid);
    ReportData(
      ticketId := ticketId,
      timestamp := Or(Get(s, "timestamp"), Str(now)),
      serviceName := ServiceName(s),
      namespace := Namespace(s),
      summary := Summary(s),
      classification := NormalizeClassification(Get(s, "classification")),
      severity := NormalizeSeverity(Get(s, "severity")),
      confidence := NormalizeConfidence(Get(s, "confidence")),
      errorMessage := ErrorText(s),
      stackTrace := SanitizeText(Or(Get(s, "stack_trace"), Str(""))),
      kubernetesEvidence := SanitizeText(kubernetes),
      codeEvidence := SanitizeText(Str(CodeEvidenceOf(s))),
      networkEvidence := SanitizeText(NetworkEvidenceOf(s)),
      rootCause := RootCause(s),
      suggestions := Suggestions(s),
      nextSteps := NextSteps(s),
      feedbackUrl := FeedbackUrl(s, ticketId))
  }

  /** Lines 219-222: the first truthy of three spellings, else the diagnosis
      page of the ticket. */
  function FeedbackUrl(s: Json, ticketId: Json): (r: Json)
    ensures r == FirstTruthy([Get(s, "feedback_url"), Get(s, "feedbackUrl"), Get(s, "feedback")],
      Str(FeedbackBase + ToStr(ticketId)))
    ensures Truthy(r)
  {
    var vs := [Get(s, "feedback_url"), Get(s, "feedbackUrl"), Get(s, "feedback")];
    assert vs[1..] == [vs[1], vs[2]] && vs[1..][1..] == [vs[2]] && vs[1..][1..][1..] == [];
    Or(Or(Or(Get(s, "feedback_url"), Get(s, "feedbackUrl")), Get(s, "feedback")),
      Str(FeedbackBase + ToStr(ticketId)))
  }

  /** Line 199: the service name, or a placeholder. */
  function ServiceName(s: Json): (r: Json)
    ensures Truthy(r)
    ensures Truthy(Get(s, "service_name")) ==> r == Get(s, "service_name")
    ensures !Truthy(Get(s, "service_name")) ==> r == Str(ServicePlaceholder)
  {
    Or(Get(s, "service_name"), Str(ServicePlaceholder))
  }

  /** Line 200: the namespace, or a placeholder. */
  function Namespace(s: Json): (r: Json)
    ensures Truthy(r)
    ensures Truthy(Get(s, "namespace")) ==> r == Get(s, "namespace")
    ensures !Truthy(Get(s, "namespace")) ==> r == Str(NamespacePlaceholder)
  {
    Or(Get(s, "namespace"), Str(NamespacePlaceholder))
  }

  /** Lines 201-202: the sanitized summary, or a request to review the
      evidence. */
  function Summary(s: Json): (r: string)
    ensures |r| > 0
    ensures |SanitizeText(Get(s, "summary"))| > 0 ==> r == SanitizeText(Get(s, "summary"))
    ensures |SanitizeText(Get(s, "summary"))| == 0 ==> r == SummaryFallback
  {
    TextOr(Get(s, "summary"), SummaryFallback)
  }

  /** Lines 211-212: the sanitized root cause, or a statement that none was
      identified. */
  function RootCause(s: Json): (r: string)
    ensures |r| > 0
    ensures |SanitizeText(Get(s, "root_cause"))| > 0 ==> r == SanitizeText(Get(s, "root_cause"))
    ensures |SanitizeText(Get(s, "root_cause"))| == 0 ==> r == RootCauseFallback
  {
    TextOr(Get(s, "root_cause"), RootCauseFallback)
  }

  /** Lines 193 and 213-215: the sanitized, non-empty suggestions, or the two
      default ones. */
  function Suggestions(s: Json): (r: seq<string>)
    ensures |r| > 0 && forall i :: 0 <= i < |r| ==> |r[i]| > 0
    ensures |SanitizeArray(Get(s, "suggestions"))| > 0 ==> r == SanitizeArray(Get(s, "suggestions"))
    ensures |SanitizeArray(Get(s, "suggestions"))| == 0 ==> r == DefaultSuggestions
  {
    assert |DefaultSuggestions[0]| > 0 && |DefaultSuggestions[1]| > 0;
    ListOr(SanitizeArray(Get(s, "suggestions")), DefaultSuggestions)
  }

  /** Lines 194 and 216-218: the next steps under either spelling, or the two
      default ones. */
  function NextSteps(s: Json): (r: seq<string>)
    ensures |r| > 0 && forall i :: 0 <= i < |r| ==> |r[i]| > 0
    ensures var given := Or(Get(s, "next_steps"), Get(s, "nextSteps"));
      && (|SanitizeArray(given)| > 0 ==> r == SanitizeArray(given))
      && (|SanitizeArray(given)| == 0 ==> r == DefaultNextSteps)
  {
    assert |DefaultNextSteps[0]| > 0 && |DefaultNextSteps[1]| > 0;
    ListOr(SanitizeArray(Or(Get(s, "next_steps"), Get(s, "nextSteps"))), DefaultNextSteps)
  }

  /** `buildReportData(input)` with the UUID and the current time given. It
      throws only when the Kubernetes evidence has to be formatted and
      formatting it throws. */
  function BuildReportData(input: Json, uuid: string, now: string): (r: Outcome<ReportData>)
    ensures r.ThrowsTypeError? <==> KubernetesEvidenceOf(SanitizedInput(input)).ThrowsTypeError?
    ensures r.Returns? ==> r.value.kubernetesEvidence == SanitizeText(KubernetesEvidenceOf(SanitizedInput(input)).value)
  {
    var s := SanitizedInput(input);
    var kubernetes := KubernetesEvidenceOf(s);
    if kubernetes.ThrowsTypeError? then ThrowsTypeError
    else Returns(Assemble(s, uuid, now, kubernetes.value))
  }

  // ---------------------------------------------------------------------------
  // Properties of the record

  /** Lines 203-205: the three enumerated fields always hold one of their
      allowed values. */
  lemma ReportEnumsAllowed(input: Json, uuid: string, now: string)
    requires BuildReportData(input, uuid, now).Returns?
    ensures var d := BuildReportData(input, uuid, now).value;
      d.classification in Classifications && d.severity in Severities && d.confidence in Confidences
  {
  }

  /** Lines 199-202 and 211-222: every field with a fallback is non-empty;
      the lists have at least one entry and no empty entry. */
  lemma ReportFallbacksFilled(input: Json, uuid: string, now: string)
    requires BuildReportData(input, uuid, now).Returns?
    ensures var d := BuildReportData(input, uuid, now).value;
      && |d.summary| > 0 && |d.rootCause| > 0
      && Truthy(d.serviceName) && Truthy(d.namespace) && Truthy(d.feedbackUrl)
      && |d.suggestions| > 0 && (forall i :: 0 <= i < |d.suggestions| ==> |d.suggestions[i]| > 0)
      && |d.nextSteps| > 0 && (forall i :: 0 <= i < |d.nextSteps| ==> |d.nextSteps[i]| > 0)
  {
  }

  /** Lines 158-159: with a non-empty generated id and clock reading, the
      ticket id and the timestamp are never falsy. */
  lemma ReportIdentifiersPresent(input: Json, uuid: string, now: string)
    requires BuildReportData(input, uuid, now).Returns?
    requires |uuid| > 0 && |now| > 0
    ensures var d := BuildReportData(input, uuid, now).value;
      Truthy(d.ticketId) && Truthy(d.timestamp)
  {
    var s := SanitizedInput(input);
    AssembleIdentifiers(s, uuid, now, KubernetesEvidenceOf(s).value);
  }

  lemma AssembleIdentifiers(s: Json, uuid: string, now: string, kubernetes: Json)
    requires |uuid| > 0 && |now| > 0
    ensures var d := Assemble(s, uuid, now, kubernetes);
      Truthy(d.ticketId) && Truthy(d.timestamp)
  {
    assert Truthy(Str(now));
  }

  /** Lines 206-210: the error text falls back to a fixed notice, the stack
      trace to nothing, and the code and network evidence are the chosen
      evidence, sanitized. */
  lemma ReportTextFields(input: Json, uuid: string, now: string)
    requires BuildReportData(input, uuid, now).Returns?
    ensures var s := SanitizedInput(input);
      var d := BuildReportData(input, uuid, now).value;
      && d.errorMessage == ErrorText(s)
      && d.stackTrace == SanitizeText(Get(s, "stack_trace"))
      && d.codeEvidence == SanitizeText(Str(CodeEvidenceOf(s)))
      && d.networkEvidence == SanitizeText(NetworkEvidenceOf(s))
  {
    var s := SanitizedInput(input);
    AssembleTextFields(s, uuid, now, KubernetesEvidenceOf(s).value);
  }

  lemma AssembleTextFields(s: Json, uuid: string, now: string, kubernetes: Json)
    ensures var d := Assemble(s, uuid, now, kubernetes);
      && d.errorMessage == ErrorText(s)
      && d.stackTrace == SanitizeText(Get(s, "stack_trace"))
      && d.codeEvidence == SanitizeText(Str(CodeEvidenceOf(s)))
      && d.networkEvidence == SanitizeText(NetworkEvidenceOf(s))
  {
    var trace := Get(s, "stack_trace");
    if !Truthy(trace) {
      assert SanitizeText(Or(trace, Str(""))) == "";
    }
  }

  /** Lines 157-222: every other field of the record is its field function of
      the sanitized input; the timestamp is the given one or the clock
      reading. */
  lemma ReportFieldsFromInput(input: Json, uuid: string, now: string)
    requires BuildReportData(input, uuid, now).Returns?
    ensures var s := SanitizedInput(input);
      var d := BuildReportData(input, uuid, now).value;
      && d.ticketId == TicketId(s, uuid)
      && d.timestamp == Or(Get(s, "timestamp"), Str(now))
      && d.serviceName == ServiceName(s) && d.namespace == Namespace(s)
      && d.summary == Summary(s) && d.rootCause == RootCause(s)
      && d.classification == NormalizeClassification(Get(s, "classification"))
      && d.severity == NormalizeSeverity(Get(s, "severity"))
      && d.confidence == NormalizeConfidence(Get(s, "confidence"))
      && d.suggestions == Suggestions(s) && d.nextSteps == NextSteps(s)
      && d.feedbackUrl == FeedbackUrl(s, d.ticketId)
  {
    var s := SanitizedInput(input);
    AssembleFields(s, uuid, now, KubernetesEvidenceOf(s).value);
  }

  lemma AssembleFields(s: Json, uuid: string, now: string, kubernetes: Json)
    ensures var d := Assemble(s, uuid, now, kubernetes);
      && d.ticketId == TicketId(s, uuid)
      && d.timestamp == Or(Get(s, "timestamp"), Str(now))
      && d.serviceName == ServiceName(s) && d.namespace == Namespace(s)
      && d.summary == Summary(s) && d.rootCause == RootCause(s)
      && d.classification == NormalizeClassification(Get(s, "classification"))
      && d.severity == NormalizeSeverity(Get(s, "severity"))
      && d.confidence == NormalizeConfidence(Get(s, "confidence"))
      && d.suggestions == Suggestions(s) && d.nextSteps == NextSteps(s)
      && d.feedbackUrl == FeedbackUrl(s, d.ticketId)
  {
  }

  /** Line 158: the ticket id given under `ticket_id` wins over `ticketId`,
      which wins over the generated one. */
  lemma TicketIdPrecedence(input: Json, uuid: string, now: string)
    requires BuildReportData(input, uuid, now).Returns?
    ensures var s := SanitizedInput(input);
      var id := BuildReportData(input, uuid, now).value.ticketId;
      && (Truthy(Get(s, "ticket_id")) ==> id == Get(s, "ticket_id"))
      && (!Truthy(Get(s, "ticket_id")) && Truthy(Get(s, "ticketId")) ==> id == Get(s, "ticketId"))
      && (!Truthy(Get(s, "ticket_id")) && !Truthy(Get(s, "ticketId")) ==> id == Str(uuid))
  {
  }

  /** Lines 219-222: without any feedback link the record points at the
      diagnosis page of its own ticket. */
  lemma FeedbackUrlFallback(input: Json, uuid: string, now: string)
    requires BuildReportData(input, uuid, now).Returns?
    requires var s := SanitizedInput(input);
      !Truthy(Get(s, "feedback_url")) && !Truthy(Get(s, "feedbackUrl")) && !Truthy(Get(s, "feedback"))
    ensures var data := BuildReportData(input, uuid, now).value;
      data.feedbackUrl == Str(FeedbackBase + ToStr(data.ticketId))
  {
  }

  /** Line 179: an empty `code_evidence` string still wins over a code detail
      that would format to something. */
  lemma EmptyCodeEvidenceWins(s: Json)
    requires Get(s, "code_evidence") == Str("")
    ensures CodeEvidenceOf(s) == ""
  {
  }

  /** Line 172, by contrast: an empty `kubernetes_evidence` string is falsy,
      so the evidence is formatted from the pod and its events. */
  lemma EmptyKubernetesEvidenceLoses(s: Json)
    requires Get(s, "kubernetes_evidence") == Str("")
    requires KubernetesEvidence(PodDescription(s), Events(s)).Returns?
    ensures KubernetesEvidenceOf(s) == Returns(Str(KubernetesEvidence(PodDescription(s), Events(s)).value))
  {
  }

  /** Line 193: a whitespace-only suggestion keeps the default list away. */
  lemma BlankSuggestionKept(input: Json, uuid: string, now: string)
    requires BuildReportData(input, uuid, now).Returns?
    requires Get(SanitizedInput(input), "suggestions") == Arr([Str(""), Str("  ")])
    ensures BuildReportData(input, uuid, now).value.suggestions == ["  "]
  {
    WhitespaceEntrySurvives();
  }
}
