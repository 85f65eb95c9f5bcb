/**
 * The evidence formatters of the report builder
 * (n8n/report/report-generator.js, lines 56-133): Markdown blocks for a pod
 * and its events, for a code snippet around a line, and for a network probe.
 * Every piece of input text goes through `sanitizeText` on its way in.
 */
module Evidence {
  import opened Js
  import opened Redaction
  import opened ValueRedaction

  const ReadyLabel: string := "\U{2705} Ready"
  const NotReadyLabel: string := "\U{274C} Not Ready"
  const WarningIcon: string := "\U{26A0}\U{FE0F}"
  const InfoIcon: string := "\U{2139}\U{FE0F}"
  const Fence: string := "```"
  const ContainersHeading: string := "**Containers:**\n"
  const EventsHeading: string := "\n**Eventos Recentes:**\n"

  // ---------------------------------------------------------------------------
  // formatKubernetesEvidence (lines 56-96)

  /** The `**Pod:**` and `**Status:**` lines, each present when the field is
      truthy. */
  function PodHeader(pod: Json): string {
    (if Truthy(Get(pod, "name")) then PodNameLine(pod) else "")
    + (if Truthy(Get(pod, "status")) then PodStatusLine(pod) else "")
  }

  function PodNameLine(pod: Json): string {
    "**Pod:** " + SanitizeText(Get(pod, "name")) + "\n"
  }

  function PodStatusLine(pod: Json): string {
    "**Status:** " + SanitizeText(Get(pod, "status")) + "\n\n"
  }

  /** The lines for one container status. Reading `container.ready` throws
      when the entry is null or undefined. */
  function ContainerLine(c: Json): (r: Outcome<string>)
    ensures r.ThrowsTypeError? <==> Nullish(c)
  {
    if Nullish(c) then ThrowsTypeError else Returns(ContainerText(c))
  }

  /** `- name: readiness`, the start of a container's first line. */
  function ContainerHead(c: Json): string {
    "- " + SanitizeText(Get(c, "name")) + ": " + (if Truthy(Get(c, "ready")) then ReadyLabel else NotReadyLabel)
  }

  /** ` (Restarts: n)` for a finite number, nothing otherwise. */
  function RestartSuffix(restarts: Json): string {
    if restarts.Number? && restarts.num.Finite? then " (Restarts: " + IntToString(restarts.num.n) + ")" else ""
  }

  /** `  - Label: reason`, present when the state is truthy. */
  function StateLine(opening: string, state: Json): string {
    if Truthy(state) then opening + SanitizeText(Get(state, "reason")) + "\n" else ""
  }

  /** The lines for one container: its name, readiness and restart count,
      then a terminated state and then a waiting one. */
  function ContainerText(c: Json): (r: string)
    ensures |r| > 0 && r[0] == '-'
  {
    ContainerHead(c) + RestartSuffix(Get(c, "restartCount")) + "\n"
    + StateLine("  - Terminated: ", Get(Get(c, "state"), "terminated"))
    + StateLine("  - Waiting: ", Get(Get(c, "state"), "waiting"))
  }

  /** A text that begins with a prefix still begins with it when extended. */
  lemma StartsWithExtended(a: string, b: string, prefix: string)
    requires StartsWith(a, prefix)
    ensures StartsWith(a + b, prefix)
  {
    assert (a + b)[..|prefix|] == a[..|prefix|];
  }

  /** The restart count follows the readiness exactly when it is a finite
      number. */
  lemma ContainerRestartsShown(c: Json)
    ensures var r := ContainerText(c); var head := ContainerHead(c); var restarts := Get(c, "restartCount");
      && StartsWith(r, head)
      && (StartsWith(r[|head|..], " (Restarts: ") <==> restarts.Number? && restarts.num.Finite?)
      && (restarts.Number? && restarts.num.Finite? ==>
            StartsWith(r[|head|..], " (Restarts: " + IntToString(restarts.num.n) + ")\n"))
  {
    var head := ContainerHead(c);
    var restarts := Get(c, "restartCount");
    var tl := StateLine("  - Terminated: ", Get(Get(c, "state"), "terminated"));
    var wl := StateLine("  - Waiting: ", Get(Get(c, "state"), "waiting"));
    Associate(head + RestartSuffix(restarts) + "\n", tl, wl);
    assert ContainerText(c) == head + RestartSuffix(restarts) + "\n" + (tl + wl);
    RestartPartShown(head, restarts, tl + wl);
  }

  lemma RestartPartShown(head: string, restarts: Json, states: string)
    ensures var r := head + RestartSuffix(restarts) + "\n" + states;
      && StartsWith(r, head)
      && (StartsWith(r[|head|..], " (Restarts: ") <==> restarts.Number? && restarts.num.Finite?)
      && (restarts.Number? && restarts.num.Finite? ==>
            StartsWith(r[|head|..], " (Restarts: " + IntToString(restarts.num.n) + ")\n"))
  {
    var first := RestartSuffix(restarts) + "\n";
    var after := first + states;
    var r := head + RestartSuffix(restarts) + "\n" + states;
    Associate(head, RestartSuffix(restarts), "\n");
    Associate(head, first, states);
    assert r == head + after;
    assert r[..|head|] == head;
    assert r[|head|..] == after;
    StartsWithExtended(first, states, first);
    if restarts.Number? && restarts.num.Finite? {
      var opening := " (Restarts: ";
      assert first == opening + (IntToString(restarts.num.n) + ")\n");
      StartsWithExtended(opening, IntToString(restarts.num.n) + ")\n", opening);
      StartsWithExtended(first, states, opening);
    } else {
      assert first == "\n";
      assert after[0] == '\n';
    }
  }

  /** A terminated state is reported before a waiting one, each on its own
      line at the end of the container's text. */
  lemma ContainerStatesOrdered(c: Json)
    ensures var terminated := Get(Get(c, "state"), "terminated");
      var waiting := Get(Get(c, "state"), "waiting");
      var t := "  - Terminated: " + SanitizeText(Get(terminated, "reason")) + "\n";
      var w := "  - Waiting: " + SanitizeText(Get(waiting, "reason")) + "\n";
      var r := ContainerText(c);
      && (Truthy(terminated) && Truthy(waiting) ==> EndsWith(r, t + w))
      && (Truthy(terminated) && !Truthy(waiting) ==> EndsWith(r, t))
      && (!Truthy(terminated) && Truthy(waiting) ==> EndsWith(r, w))
      && (!Truthy(terminated) && !Truthy(waiting) ==> EndsWith(r, RestartSuffix(Get(c, "restartCount")) + "\n"))
  {
    var head := ContainerHead(c);
    var restarts := Get(c, "restartCount");
    var tl := StateLine("  - Terminated: ", Get(Get(c, "state"), "terminated"));
    var wl := StateLine("  - Waiting: ", Get(Get(c, "state"), "waiting"));
    Associate(head + RestartSuffix(restarts) + "\n", tl, wl);
    assert ContainerText(c) == head + RestartSuffix(restarts) + "\n" + (tl + wl);
    StatesLast(head, RestartSuffix(restarts), Get(Get(c, "state"), "terminated"), Get(Get(c, "state"), "waiting"));
  }

  lemma StatesLast(head: string, suffix: string, terminated: Json, waiting: Json)
    ensures var t := "  - Terminated: " + SanitizeText(Get(terminated, "reason")) + "\n";
      var w := "  - Waiting: " + SanitizeText(Get(waiting, "reason")) + "\n";
      var r := head + suffix + "\n" + (StateLine("  - Terminated: ", terminated) + StateLine("  - Waiting: ", waiting));
      && (Truthy(terminated) && Truthy(waiting) ==> EndsWith(r, t + w))
      && (Truthy(terminated) && !Truthy(waiting) ==> EndsWith(r, t))
      && (!Truthy(terminated) && Truthy(waiting) ==> EndsWith(r, w))
      && (!Truthy(terminated) && !Truthy(waiting) ==> EndsWith(r, suffix + "\n"))
  {
    var first := head + suffix + "\n";
    var tl := StateLine("  - Terminated: ", terminated);
    var wl := StateLine("  - Waiting: ", waiting);
    EndsWithExtended(first, tl + wl);
    if !Truthy(terminated) && !Truthy(waiting) {
      assert first + (tl + wl) == first;
      Associate(head, suffix, "\n");
      EndsWithExtended(head, suffix + "\n");
    } else if !Truthy(waiting) {
      assert tl + wl == tl;
    } else if !Truthy(terminated) {
      assert tl + wl == wl;
    }
  }

  /** The second part of a concatenation is a suffix of it. */
  lemma EndsWithExtended(a: string, b: string)
    ensures EndsWith(a + b, b)
  {
    assert (a + b)[|a + b| - |b|..] == b;
  }

  /** What a `for...of` loop that appends one rendering per entry leaves
      behind: the renderings in input order, or a throw when one of them
      throws. */
  function RenderLines(lines: seq<Outcome<string>>): (r: Outcome<string>)
    ensures r.ThrowsTypeError? <==> exists i :: 0 <= i < |lines| && lines[i].ThrowsTypeError?
    decreases |lines|
  {
    if |lines| == 0 then Returns("")
    else
      var init := RenderLines(lines[..|lines| - 1]);
      var last := lines[|lines| - 1];
      assert forall i :: 0 <= i < |lines| - 1 ==> lines[..|lines| - 1][i] == lines[i];
      if init.ThrowsTypeError? || last.ThrowsTypeError? then ThrowsTypeError
      else Returns(init.value + last.value)
  }

  /** Rendering is in input order: the lines of `a + b` give the text of `a`
      followed by the text of `b`. */
  lemma {:induction false} RenderLinesAppend(a: seq<Outcome<string>>, b: seq<Outcome<string>>)
    requires RenderLines(a).Returns? && RenderLines(b).Returns?
    ensures RenderLines(a + b) == Returns(RenderLines(a).value + RenderLines(b).value)
    decreases |b|
  {
    if |b| > 0 {
      var b' := b[..|b| - 1];
      assert (a + b)[..|a + b| - 1] == a + b';
      assert (a + b)[|a + b| - 1] == b[|b| - 1];
      RenderLinesAppend(a, b');
      var last := b[|b| - 1];
      assert RenderLines(b) == Returns(RenderLines(b').value + last.value);
      assert RenderLines(a + b) == Returns(RenderLines(a + b').value + last.value);
      Associate(RenderLines(a).value, RenderLines(b').value, last.value);
    } else {
      assert a + b == a;
      assert RenderLines(a).value + "" == RenderLines(a).value;
    }
  }

  function ContainerLines(cs: seq<Json>): (r: seq<Outcome<string>>)
    ensures |r| == |cs| && forall i :: 0 <= i < |cs| ==> r[i] == ContainerLine(cs[i])
  {
    seq(|cs|, i requires 0 <= i < |cs| => ContainerLine(cs[i]))
  }

  /** The container lines in input order; a null or undefined entry throws. */
  function ContainerBlock(cs: seq<Json>): (r: Outcome<string>)
    ensures r.ThrowsTypeError? <==> exists i :: 0 <= i < |cs| && Nullish(cs[i])
  {
    var lines := ContainerLines(cs);
    assert forall i :: 0 <= i < |cs| ==> (lines[i].ThrowsTypeError? <==> Nullish(cs[i]));
    RenderLines(lines)
  }

  /** The line for one event. Reading `event.type` throws on null or
      undefined. */
  function EventLine(e: Json): (r: Outcome<string>)
    ensures r.ThrowsTypeError? <==> Nullish(e)
  {
    if Nullish(e) then ThrowsTypeError else Returns(EventText(e))
  }

  /** The warning icon exactly when the type is `"Warning"`. */
  function EventText(e: Json): (r: string)
    ensures |r| > 0 && (r[0] == WarningIcon[0] <==> Get(e, "type") == Str("Warning"))
  {
    var icon := if Get(e, "type") == Str("Warning") then WarningIcon else InfoIcon;
    icon + " [" + SanitizeText(Get(e, "reason")) + "] " + SanitizeText(Get(e, "message")) + "\n"
  }

  function EventLines(es: seq<Json>): (r: seq<Outcome<string>>)
    ensures |r| == |es| && forall i :: 0 <= i < |es| ==> r[i] == EventLine(es[i])
  {
    seq(|es|, i requires 0 <= i < |es| => EventLine(es[i]))
  }

  /** The event lines in input order; a null or undefined entry throws. */
  function EventBlock(es: seq<Json>): (r: Outcome<string>)
    ensures r.ThrowsTypeError? <==> exists i :: 0 <= i < |es| && Nullish(es[i])
  {
    var lines := EventLines(es);
    assert forall i :: 0 <= i < |es| ==> (lines[i].ThrowsTypeError? <==> Nullish(es[i]));
    RenderLines(lines)
  }

  /** `events.slice(-5)`, then iterated: the last five elements of an array,
      the last five characters of a string; any other value has no `slice`
      and the call throws. */
  function RecentEvents(events: Json): (r: Option<seq<Json>>)
    ensures events.Arr? ==> r == Some(LastN(events.items, 5))
    ensures r.Some? ==> |r.value| <= 5
    ensures !events.Arr? && !events.Str? ==> r == None
  {
    match events
    case Arr(items) => Some(LastN(items, 5))
    case Str(s) => Some(Chars(LastN(s, 5)))
    case _ => None
  }

  /** The `**Containers:**` section, present when `containerStatuses` has a
      truthy length; iterating a value that is not iterable throws. */
  function ContainersSection(pod: Json): Outcome<string> {
    var statuses := Get(pod, "containerStatuses");
    if !HasLength(statuses) then Returns("")
    else match Iterate(statuses)
      case None => ThrowsTypeError
      case Some(cs) =>
        var block := ContainerBlock(cs);
        if block.ThrowsTypeError? then ThrowsTypeError else Returns(ContainersHeading + block.value)
  }

  /** The `**Eventos Recentes:**` section, present when the events have a
      truthy length. */
  function EventsSection(events: Json): Outcome<string> {
    if !HasLength(events) then Returns("")
    else match RecentEvents(events)
      case None => ThrowsTypeError
      case Some(es) =>
        var block := EventBlock(es);
        if block.ThrowsTypeError? then ThrowsTypeError else Returns(EventsHeading + block.value)
  }

  /** `formatKubernetesEvidence(podDescription, events)`: empty when both are
      falsy, otherwise the trimmed concatenation of the pod header, the
      containers and the recent events. It throws exactly when a section it
      renders throws. */
  function KubernetesEvidence(pod: Json, events: Json): (r: Outcome<string>)
    ensures !Truthy(pod) && !Truthy(events) ==> r == Returns("")
    ensures r.ThrowsTypeError? <==>
      (Truthy(pod) || Truthy(events))
      && (ContainersSection(pod).ThrowsTypeError? || EventsSection(events).ThrowsTypeError?)
  {
    if !Truthy(pod) && !Truthy(events) then Returns("")
    else
      var cs := ContainersSection(pod);
      var es := EventsSection(events);
      if cs.ThrowsTypeError? || es.ThrowsTypeError? then ThrowsTypeError
      else Returns(Trim(PodHeader(pod) + cs.value + es.value))
  }

  /** An object with a truthy `length` passes the section test but cannot be
      iterated or sliced, so rendering it throws. */
  lemma NonIterableSectionThrows(pod: Json, events: Json)
    ensures var statuses := Get(pod, "containerStatuses");
      statuses.Obj? && Truthy(Get(statuses, "length")) ==> KubernetesEvidence(pod, events).ThrowsTypeError?
    ensures events.Obj? && Truthy(Get(events, "length")) ==> KubernetesEvidence(pod, events).ThrowsTypeError?
  {
    var statuses := Get(pod, "containerStatuses");
    if statuses.Obj? && Truthy(Get(statuses, "length")) {
      assert pod.Obj?;
      assert ContainersSection(pod).ThrowsTypeError?;
    }
    if events.Obj? && Truthy(Get(events, "length")) {
      assert EventsSection(events).ThrowsTypeError?;
    }
  }

  /** `output` followed by a section, unless rendering the section throws. */
  function Extend(output: string, section: Outcome<string>): (r: Outcome<string>)
    ensures r.ThrowsTypeError? <==> section.ThrowsTypeError?
    ensures r.Returns? ==> r.value == output + section.value
  {
    if section.ThrowsTypeError? then ThrowsTypeError else Returns(output + section.value)
  }

  /** The formatter as written: `output` grows by `+=` through the header
      lines and the two `for...of` loops, and is trimmed at the end. */
  method FormatKubernetesEvidence(pod: Json, events: Json) returns (r: Outcome<string>)
    ensures r == KubernetesEvidence(pod, events)
  {
    if !Truthy(pod) && !Truthy(events) {
      return Returns("");
    }
    var output := "";
    if Truthy(Get(pod, "name")) {
      output := output + PodNameLine(pod);
    }
    assert output == (if Truthy(Get(pod, "name")) then PodNameLine(pod) else "");
    ghost var o1 := output;
    if Truthy(Get(pod, "status")) {
      output := output + PodStatusLine(pod);
    }
    assert output == o1 + (if Truthy(Get(pod, "status")) then PodStatusLine(pod) else "");
    assert output == PodHeader(pod);
    var withContainers := AppendContainers(output, pod);
    if withContainers.ThrowsTypeError? {
      return ThrowsTypeError;
    }
    var withEvents := AppendEvents(withContainers.value, events);
    if withEvents.ThrowsTypeError? {
      return ThrowsTypeError;
    }
    Associate(PodHeader(pod), ContainersSection(pod).value, EventsSection(events).value);
    r := Returns(Trim(withEvents.value));
  }

  /** Lines 67-84: the containers heading and one `output +=` per container. */
  method AppendContainers(output: string, pod: Json) returns (r: Outcome<string>)
    ensures r == Extend(output, ContainersSection(pod))
  {
    var statuses := Get(pod, "containerStatuses");
    if !HasLength(statuses) {
      assert output + "" == output;
      return Returns(output);
    }
    var text := output + ContainersHeading;
    var iterated := Iterate(statuses);
    if iterated.None? {
      return ThrowsTypeError;
    }
    ghost var block := ContainerBlock(iterated.value);
    assert block == RenderLines(ContainerLines(iterated.value));
    r := AppendLines(text, ContainerLines(iterated.value));
    if r.Returns? {
      Associate(output, ContainersHeading, block.value);
    }
  }

  /** Lines 86-93: the events heading and one `output +=` per recent event. */
  method AppendEvents(output: string, events: Json) returns (r: Outcome<string>)
    ensures r == Extend(output, EventsSection(events))
  {
    if !HasLength(events) {
      assert output + "" == output;
      return Returns(output);
    }
    var text := output + EventsHeading;
    var recent := RecentEvents(events);
    if recent.None? {
      return ThrowsTypeError;
    }
    ghost var block := EventBlock(recent.value);
    assert block == RenderLines(EventLines(recent.value));
    r := AppendLines(text, EventLines(recent.value));
    if r.Returns? {
      Associate(output, EventsHeading, block.value);
    }
  }

  /** One of the two loops: `output += line` for each entry, stopping at the
      first that throws. */
  method AppendLines(output: string, lines: seq<Outcome<string>>) returns (r: Outcome<string>)
    ensures RenderLines(lines).ThrowsTypeError? ==> r.ThrowsTypeError?
    ensures RenderLines(lines).Returns? ==> r == Returns(output + RenderLines(lines).value)
  {
    var text := output;
    var i := 0;
    while i < |lines|
      invariant 0 <= i <= |lines|
      invariant RenderLines(lines[..i]).Returns?
      invariant text == output + RenderLines(lines[..i]).value
    {
      assert lines[..i + 1][..i] == lines[..i];
      if lines[i].ThrowsTypeError? {
        return ThrowsTypeError;
      }
      text := text + lines[i].value;
      i := i + 1;
    }
    assert lines[..|lines|] == lines;
    r := Returns(text);
  }

  /** Containers are rendered in input order. */
  lemma ContainerBlockAppend(a: seq<Json>, b: seq<Json>)
    requires ContainerBlock(a).Returns? && ContainerBlock(b).Returns?
    ensures ContainerBlock(a + b) == Returns(ContainerBlock(a).value + ContainerBlock(b).value)
  {
    var la, lb, lab := ContainerLines(a), ContainerLines(b), ContainerLines(a + b);
    assert lab == la + lb by {
      forall i | 0 <= i < |lab| ensures lab[i] == (la + lb)[i] {
        if i < |a| {
          assert (a + b)[i] == a[i];
        } else {
          assert (a + b)[i] == b[i - |a|];
        }
      }
    }
    RenderLinesAppend(la, lb);
  }

  /** Events are rendered in input order. */
  lemma EventBlockAppend(a: seq<Json>, b: seq<Json>)
    requires EventBlock(a).Returns? && EventBlock(b).Returns?
    ensures EventBlock(a + b) == Returns(EventBlock(a).value + EventBlock(b).value)
  {
    var la, lb, lab := EventLines(a), EventLines(b), EventLines(a + b);
    assert lab == la + lb by {
      forall i | 0 <= i < |lab| ensures lab[i] == (la + lb)[i] {
        if i < |a| {
          assert (a + b)[i] == a[i];
        } else {
          assert (a + b)[i] == b[i - |a|];
        }
      }
    }
    RenderLinesAppend(la, lb);
  }

  /** Only the last five events count: events before them change nothing. */
  lemma OlderEventsIgnored(pod: Json, older: seq<Json>, recent: seq<Json>)
    requires |recent| >= 5
    ensures KubernetesEvidence(pod, Arr(older + recent)) == KubernetesEvidence(pod, Arr(recent))
  {
    var all := older + recent;
    assert LastN(all, 5) == LastN(recent, 5) by {
      assert all[|all| - 5..] == recent[|recent| - 5..];
    }
    assert RecentEvents(Arr(all)) == RecentEvents(Arr(recent));
    assert HasLength(Arr(all)) && HasLength(Arr(recent));
    assert EventsSection(Arr(all)) == EventsSection(Arr(recent));
    assert Truthy(Arr(all)) && Truthy(Arr(recent));
  }

  /** With fewer than five events, all of them are shown, in order. */
  lemma FewEventsAllShown(events: seq<Json>)
    requires 0 < |events| <= 5 && EventBlock(events).Returns?
    ensures EventsSection(Arr(events)) == Returns(EventsHeading + EventBlock(events).value)
  {
  }

  // ---------------------------------------------------------------------------
  // formatCodeEvidence (lines 98-118)

  /** `Number(lineNumber) || 1`: zero and NaN become 1; negative numbers and
      the infinities are kept. */
  function SafeLineNumber(lineNumber: Json): (r: Num)
    ensures NumTruthy(r)
    ensures NumTruthy(ToNumber(lineNumber)) ==> r == ToNumber(lineNumber)
    ensures !NumTruthy(ToNumber(lineNumber)) ==> r == Finite(1)
  {
    var n := ToNumber(lineNumber);
    if NumTruthy(n) then n else Finite(1)
  }

  /** `Math.max(1, n - 5)` */
  function StartLine(n: Num): (r: Num)
    ensures n.Finite? ==> r.Finite? && r.n >= 1 && r.n >= n.n - 5 && (r.n == 1 || r.n == n.n - 5)
    ensures n == PosInfinity ==> r == PosInfinity
    ensures n == NegInfinity ==> r == Finite(1)
  {
    match n
    case Finite(i) => Finite(if i - 5 > 1 then i - 5 else 1)
    case PosInfinity => PosInfinity
    case NegInfinity => Finite(1)
    case NaN => NaN
  }

  /** `start + index` for a number and a non-negative integer. */
  function Plus(n: Num, k: nat): Num {
    match n
    case Finite(i) => Finite(i + k)
    case _ => n
  }

  /** One snippet line, as rendered: the `>>>` marker exactly when its number
      is the requested line. */
  function CodeLine(start: Num, target: Num, index: nat, text: string): (r: string)
    ensures |r| > 4 && (r[0] == '>' <==> Plus(start, index) == target) && r[3] == ' '
    ensures StartsWith(r[4..], NumToString(Plus(start, index)) + ": ")
    ensures EndsWith(r, SanitizeText(Str(text)) + "\n")
  {
    var current := Plus(start, index);
    var marker := if current == target then ">>>" else "   ";
    var number := NumToString(current) + ": ";
    var rest := SanitizeText(Str(text)) + "\n";
    LineLayout(marker, number, rest);
    marker + " " + number + rest
  }

  /** Where the parts of a rendered snippet line sit. */
  lemma LineLayout(marker: string, number: string, rest: string)
    requires |marker| == 3
    ensures var r := marker + " " + number + rest;
      && |r| > 3 && r[0] == marker[0] && r[3] == ' '
      && StartsWith(r[4..], number) && EndsWith(r, rest)
  {
    var r := marker + " " + number + rest;
    assert r == (marker + " ") + (number + rest);
    assert r[4..] == number + rest;
    assert r[|r| - |rest|..] == rest;
  }

  /** The rendered lines, one per snippet line, numbered from `start`. */
  function CodeLines(lines: seq<string>, start: Num, target: Num): (r: seq<string>)
    ensures |r| == |lines|
    ensures forall i :: 0 <= i < |lines| ==> r[i] == CodeLine(start, target, i, lines[i])
  {
    seq(|lines|, i requires 0 <= i < |lines| => CodeLine(start, target, i, lines[i]))
  }

  function CodeHeader(filePath: Json, target: Num, language: Json): (r: string)
    ensures |r| > 0 && r[0] == '*'
  {
    "**Arquivo:** `" + SanitizeText(Or(filePath, Str("arquivo desconhecido"))) + "`\n"
    + "**Linha:** " + NumToString(target) + "\n\n"
    + Fence + SanitizeText(language) + "\n"
  }

  /** `formatCodeEvidence(filePath, lineNumber, codeSnippet, language)`: empty
      exactly when the snippet is falsy; otherwise the header, the rendered
      lines and the closing fence, with the final newline trimmed. */
  function CodeEvidence(filePath: Json, lineNumber: Json, snippet: Json, language: Json): (r: string)
    ensures |r| == 0 <==> !Truthy(snippet)
  {
    if !Truthy(snippet) then ""
    else
      var lines := Split(ToStr(snippet), '\n');
      var target := SafeLineNumber(lineNumber);
      var body := CodeHeader(filePath, target, language) + Concat(CodeLines(lines, StartLine(target), target)) + Fence;
      TrimFenced(body);
      Trim(body + "\n")
  }

  /** The text is the header, the rendered snippet lines in order and the
      closing fence. */
  lemma CodeEvidenceLayout(filePath: Json, lineNumber: Json, snippet: Json, language: Json)
    requires Truthy(snippet)
    ensures var target := SafeLineNumber(lineNumber);
      CodeEvidence(filePath, lineNumber, snippet, language)
        == CodeHeader(filePath, target, language)
           + Concat(CodeLines(Split(ToStr(snippet), '\n'), StartLine(target), target)) + Fence
  {
    var lines := Split(ToStr(snippet), '\n');
    var target := SafeLineNumber(lineNumber);
    var header := CodeHeader(filePath, target, language);
    var body := header + Concat(CodeLines(lines, StartLine(target), target)) + Fence;
    assert body[0] == header[0] == '*';
    assert body[|body| - 1] == Fence[2] == '`';
    TrimFenced(body);
  }

  /** The i-th rendered line is numbered `start + i`, is marked exactly when
      that is the requested line, and ends with the i-th snippet line,
      sanitized. */
  lemma CodeLinesNumbered(lines: seq<string>, start: Num, target: Num, i: nat)
    requires i < |lines|
    ensures var line := CodeLines(lines, start, target)[i];
      && StartsWith(line[4..], NumToString(Plus(start, i)) + ": ")
      && (line[0] == '>' <==> Plus(start, i) == target)
      && EndsWith(line, SanitizeText(Str(lines[i])) + "\n")
  {
    assert CodeLines(lines, start, target)[i] == CodeLine(start, target, i, lines[i]);
  }

  /** Trimming text that opens with `*` and closes with the fence only drops
      the final newline. */
  lemma TrimFenced(body: string)
    requires |body| >= 3 && body[0] == '*' && body[|body| - 1] == '`'
    ensures Trim(body + "\n") == body
  {
    var s := body + "\n";
    assert s[0] == '*' && !IsSpace('*');
    TrimStartStops(s);
    assert s[..|s| - 1] == body;
    assert IsSpace(s[|s| - 1]);
    TrimEndDropsLast(s);
    assert body[|body| - 1] == '`' && !IsSpace('`');
    TrimEndStops(body);
  }

  lemma TrimStartStops(s: string)
    requires |s| > 0 && !IsSpace(s[0])
    ensures TrimStart(s) == s
  {
  }

  lemma TrimEndStops(s: string)
    requires |s| > 0 && !IsSpace(s[|s| - 1])
    ensures TrimEnd(s) == s
  {
  }

  lemma TrimEndDropsLast(s: string)
    requires |s| > 0 && IsSpace(s[|s| - 1])
    ensures TrimEnd(s) == TrimEnd(s[..|s| - 1])
  {
  }

  /** The formatter as written: the header, then `output +=` once per line in
      the `forEach`, then the fence and `trim`. */
  method FormatCodeEvidence(filePath: Json, lineNumber: Json, snippet: Json, language: Json) returns (r: string)
    ensures r == CodeEvidence(filePath, lineNumber, snippet, language)
  {
    if !Truthy(snippet) {
      return "";
    }
    var lines := Split(ToStr(snippet), '\n');
    var target := SafeLineNumber(lineNumber);
    var start := StartLine(target);
    var output := CodeHeader(filePath, target, language);
    ghost var header := output;
    var index := 0;
    assert CodeLines(lines[..0], start, target) == [];
    assert output == header + "";
    while index < |lines|
      invariant 0 <= index <= |lines|
      invariant output == header + Concat(CodeLines(lines[..index], start, target))
    {
      var line := CodeLine(start, target, index, lines[index]);
      CodeLinesStep(lines, index, start, target);
      Associate(header, Concat(CodeLines(lines[..index], start, target)), line);
      output := output + line;
      index := index + 1;
    }
    assert lines[..|lines|] == lines;
    ghost var body := header + Concat(CodeLines(lines, start, target)) + Fence;
    output := output + Fence + "\n";
    assert output == body + "\n";
    r := Trim(output);
    assert r == Trim(body + "\n");
  }

  lemma CodeLinesStep(lines: seq<string>, n: nat, start: Num, target: Num)
    requires n < |lines|
    ensures Concat(CodeLines(lines[..n + 1], start, target))
      == Concat(CodeLines(lines[..n], start, target)) + CodeLine(start, target, n, lines[n])
  {
    var done := CodeLines(lines[..n], start, target);
    var next := CodeLines(lines[..n + 1], start, target);
    assert next[..n] == done;
  }

  /** The number of lines carrying the marker. */
  function MarkedCount(rendered: seq<string>): nat {
    if |rendered| == 0 then 0
    else
      var last := rendered[|rendered| - 1];
      MarkedCount(rendered[..|rendered| - 1]) + (if |last| > 0 && last[0] == '>' then 1 else 0)
  }

  /** For a finite requested line L, exactly one line carries the marker when
      the numbered range `start .. start + n - 1` contains L, and none does
      otherwise. */
  lemma {:induction false} MarkedCountFinite(lines: seq<string>, start: int, target: int)
    ensures MarkedCount(CodeLines(lines, Finite(start), Finite(target)))
      == if start <= target < start + |lines| then 1 else 0
    decreases |lines|
  {
    if |lines| > 0 {
      var init := lines[..|lines| - 1];
      var rendered := CodeLines(lines, Finite(start), Finite(target));
      assert rendered[..|rendered| - 1] == CodeLines(init, Finite(start), Finite(target));
      MarkedCountFinite(init, start, target);
    }
  }

  /** The marker follows the requested line: a finite, positive requested line
      inside the snippet is marked once; a negative one never (numbering
      starts at 1). */
  lemma MarkerPresence(lines: seq<string>, lineNumber: Json)
    requires ToNumber(lineNumber).Finite?
    ensures var target := SafeLineNumber(lineNumber);
      var start := StartLine(target);
      MarkedCount(CodeLines(lines, start, target))
        == if target.n <= start.n + |lines| - 1 && target.n >= 1 then 1 else 0
  {
    var target := SafeLineNumber(lineNumber);
    MarkedCountFinite(lines, StartLine(target).n, target.n);
  }

  /** A requested line more than five lines in, with a snippet of at most five
      lines, is not marked: the snippet is taken to start five lines before
      it. */
  lemma ShortSnippetUnmarked(lines: seq<string>, target: int)
    requires target > 6 && |lines| <= 5
    ensures MarkedCount(CodeLines(lines, StartLine(Finite(target)), Finite(target))) == 0
  {
    MarkedCountFinite(lines, target - 5, target);
  }

  /** An infinite requested line (`Number("Infinity")`) marks every line: all
      of them are numbered `Infinity`. */
  lemma InfiniteLineMarksAll(lines: seq<string>, lineNumber: Json)
    requires ToNumber(lineNumber) == PosInfinity
    ensures var target := SafeLineNumber(lineNumber);
      forall i :: 0 <= i < |lines| ==> CodeLines(lines, StartLine(target), target)[i][0] == '>'
  {
  }

  // ---------------------------------------------------------------------------
  // formatNetworkEvidence (lines 120-133)

  /** One `**Label:** value` line, present when the value is truthy. */
  function LabelLine(caption: string, value: Json, suffix: string): (r: string)
    ensures Truthy(value) ==> |r| > 0 && r[0] == '*'
    ensures !Truthy(value) ==> |r| == 0
  {
    if Truthy(value) then "**" + caption + ":** " + ToStr(value) + suffix + "\n" else ""
  }

  /** The four detail lines of an object probe result, in their fixed order. */
  function NetworkLines(details: Json): string {
    LabelLine("URL", Get(details, "url"), "")
    + LabelLine("Status", Get(details, "status_code"), "")
    + LabelLine("Tempo de resposta", Get(details, "response_time_ms"), "ms")
    + LabelLine("Erro", Get(details, "error"), "")
  }

  /** The four fields the formatter shows. */
  predicate ShowsSomething(details: Json) {
    Truthy(Get(details, "url")) || Truthy(Get(details, "status_code"))
    || Truthy(Get(details, "response_time_ms")) || Truthy(Get(details, "error"))
  }

  /** `formatNetworkEvidence(networkInfo)`: empty for a falsy input, the
      sanitized text for a string, and otherwise the lines for the truthy
      fields of the sanitized input, empty exactly when none of the four is
      truthy. */
  function NetworkEvidence(info: Json): (r: string)
    ensures !Truthy(info) ==> |r| == 0
    ensures info.Str? ==> r == SanitizeText(info)
    ensures Truthy(info) && !info.Str? ==> (|r| == 0 <==> !ShowsSomething(SanitizedValue(info)))
  {
    if !Truthy(info) then ""
    else if info.Str? then SanitizeText(info)
    else
      var details := SanitizedValue(info);
      NetworkLinesTrimmed(details);
      Trim(NetworkLines(details))
  }

  /** A detail line's caption, the field it shows and the unit written after
      the value. */
  datatype DetailField = DetailField(caption: string, key: string, unit: string)

  /** The four fields, in the order they are shown. */
  const NetworkFields: seq<DetailField> := [
    DetailField("URL", "url", ""),
    DetailField("Status", "status_code", ""),
    DetailField("Tempo de resposta", "response_time_ms", "ms"),
    DetailField("Erro", "error", "")]

  /** The lines shown for `fields`, without their line breaks: one
      `**Caption:** value unit` line per truthy field, in the order given. */
  function ShownLines(details: Json, fields: seq<DetailField>): (r: seq<string>)
    ensures |r| <= |fields|
    ensures |r| == 0 <==> forall i :: 0 <= i < |fields| ==> !Truthy(Get(details, fields[i].key))
    ensures forall i :: 0 <= i < |r| ==> |r[i]| > 0 && r[i][0] == '*'
    decreases |fields|
  {
    if |fields| == 0 then []
    else
      var f := fields[0];
      var v := Get(details, f.key);
      var rest := ShownLines(details, fields[1..]);
      assert forall i :: 1 <= i < |fields| ==> fields[i] == fields[1..][i - 1];
      (if Truthy(v) then ["**" + f.caption + ":** " + ToStr(v) + f.unit] else []) + rest
  }

  /** The `LabelLine`s of `fields`, one after the other. */
  function LabelLines(details: Json, fields: seq<DetailField>): string
    decreases |fields|
  {
    if |fields| == 0 then ""
    else LabelLine(fields[0].caption, Get(details, fields[0].key), fields[0].unit) + LabelLines(details, fields[1..])
  }

  /** Each shown line is followed by a line break. */
  lemma {:induction false} LabelLinesJoin(details: Json, fields: seq<DetailField>)
    ensures LabelLines(details, fields) == Join(ShownLines(details, fields) + [""], "\n")
    decreases |fields|
  {
    if |fields| > 0 {
      LabelLinesJoin(details, fields[1..]);
      var f := fields[0];
      var v := Get(details, f.key);
      var rest := ShownLines(details, fields[1..]);
      if Truthy(v) {
        var line := "**" + f.caption + ":** " + ToStr(v) + f.unit;
        assert LabelLine(f.caption, v, f.unit) == line + "\n";
        assert ShownLines(details, fields) + [""] == [line] + (rest + [""]);
        assert ([line] + (rest + [""]))[1..] == rest + [""];
      } else {
        assert ShownLines(details, fields) == rest;
      }
    }
  }

  /** The formatter's four lines are the `LabelLine`s of the four fields in
      their fixed order. */
  lemma NetworkLinesInOrder(details: Json)
    ensures NetworkLines(details) == Join(ShownLines(details, NetworkFields) + [""], "\n")
  {
    NetworkLinesAreLabelLines(details);
    LabelLinesJoin(details, NetworkFields);
  }

  lemma NetworkLinesAreLabelLines(details: Json)
    ensures NetworkLines(details) == LabelLines(details, NetworkFields)
  {
    var fs := NetworkFields;
    assert [fs[0], fs[1], fs[2], fs[3]] == fs;
    LabelLinesOfFour(details, fs[0], fs[1], fs[2], fs[3]);
    RegroupFour(
      LabelLine("URL", Get(details, "url"), ""),
      LabelLine("Status", Get(details, "status_code"), ""),
      LabelLine("Tempo de resposta", Get(details, "response_time_ms"), "ms"),
      LabelLine("Erro", Get(details, "error"), ""));
  }

  lemma LabelLinesOfFour(details: Json, f0: DetailField, f1: DetailField, f2: DetailField, f3: DetailField)
    ensures LabelLines(details, [f0, f1, f2, f3])
      == LabelLine(f0.caption, Get(details, f0.key), f0.unit)
         + (LabelLine(f1.caption, Get(details, f1.key), f1.unit)
         + (LabelLine(f2.caption, Get(details, f2.key), f2.unit)
         + LabelLine(f3.caption, Get(details, f3.key), f3.unit)))
  {
    assert [f3] + [] == [f3];
    assert [f2] + [f3] == [f2, f3];
    assert [f1] + [f2, f3] == [f1, f2, f3];
    assert [f0] + [f1, f2, f3] == [f0, f1, f2, f3];
    LabelLinesCons(details, f3, []);
    assert LabelLines(details, []) == "";
    LabelLinesCons(details, f2, [f3]);
    LabelLinesCons(details, f1, [f2, f3]);
    LabelLinesCons(details, f0, [f1, f2, f3]);
  }

  lemma RegroupFour(a: string, b: string, c: string, d: string)
    ensures ((a + b) + c) + d == a + (b + (c + d))
  {
    Associate(b, c, d);
    Associate(a, b + c, d);
    Associate(a, b, c);
  }

  lemma LabelLinesCons(details: Json, f: DetailField, fs: seq<DetailField>)
    ensures LabelLines(details, [f] + fs) == LabelLine(f.caption, Get(details, f.key), f.unit) + LabelLines(details, fs)
  {
    assert ([f] + fs)[1..] == fs;
  }

  /** The lines of a probe result's evidence: the shown fields' lines in the
      order URL, Status, Tempo de resposta, Erro, the last one without its
      trailing white space; nothing when no field is shown. */
  lemma NetworkEvidenceLines(info: Json)
    requires Truthy(info) && !info.Str?
    requires var shown := ShownLines(SanitizedValue(info), NetworkFields);
      forall i :: 0 <= i < |shown| ==> '\n' !in shown[i]
    ensures var shown := ShownLines(SanitizedValue(info), NetworkFields);
      && (|shown| == 0 ==> NetworkEvidence(info) == "")
      && (|shown| > 0 ==>
            Split(NetworkEvidence(info), '\n') == shown[..|shown| - 1] + [TrimEnd(shown[|shown| - 1])])
  {
    var details := SanitizedValue(info);
    var shown := ShownLines(details, NetworkFields);
    NetworkEvidenceTrimsLines(info);
    NetworkLinesInOrder(details);
    if |shown| == 0 {
      assert shown + [""] == [""];
      assert Join([""], "\n") == "";
      assert Trim("") == "";
    } else {
      ShownLinesTrimmed(shown);
    }
  }

  lemma NetworkEvidenceTrimsLines(info: Json)
    requires Truthy(info) && !info.Str?
    ensures NetworkEvidence(info) == Trim(NetworkLines(SanitizedValue(info)))
  {
  }

  /** Trimming lines that each end in a line break. */
  lemma ShownLinesTrimmed(shown: seq<string>)
    requires |shown| > 0
    requires forall i :: 0 <= i < |shown| ==> |shown[i]| > 0 && shown[i][0] == '*' && '\n' !in shown[i]
    ensures Split(Trim(Join(shown + [""], "\n")), '\n') == shown[..|shown| - 1] + [TrimEnd(shown[|shown| - 1])]
  {
    var parts := shown[..|shown| - 1] + [TrimEnd(shown[|shown| - 1])];
    TrimJoinedLines(shown);
    TrimEndJoined(shown);
    forall i | 0 <= i < |parts| ensures '\n' !in parts[i] {
      if i == |parts| - 1 {
        var last := shown[|shown| - 1];
        var trimmed := TrimEnd(last);
        assert trimmed == last[..|trimmed|];
        assert forall k :: 0 <= k < |trimmed| ==> trimmed[k] == last[k];
      } else {
        assert parts[i] == shown[i];
      }
    }
    SplitJoin(parts, '\n');
  }

  /** The final line break goes, and nothing at the start does. */
  lemma TrimJoinedLines(shown: seq<string>)
    requires |shown| > 0 && |shown[0]| > 0 && shown[0][0] == '*'
    ensures Trim(Join(shown + [""], "\n")) == TrimEnd(Join(shown, "\n"))
  {
    var joined := Join(shown, "\n");
    JoinSnoc(shown, "", "\n");
    var text := joined + "\n";
    assert Join(shown + [""], "\n") == text;
    JoinStartsWithFirst(shown, "\n");
    assert text[0] == joined[0] == shown[0][0];
    TrimStartStops(text);
    assert text[..|text| - 1] == joined;
    TrimEndDropsLast(text);
  }

  /** Only the last line loses its trailing white space. */
  lemma TrimEndJoined(shown: seq<string>)
    requires |shown| > 0
    requires var last := shown[|shown| - 1]; |last| > 0 && !IsSpace(last[0])
    ensures TrimEnd(Join(shown, "\n")) == Join(shown[..|shown| - 1] + [TrimEnd(shown[|shown| - 1])], "\n")
  {
    var init := shown[..|shown| - 1];
    var last := shown[|shown| - 1];
    if |init| == 0 {
      assert shown == [last];
      assert init + [TrimEnd(last)] == [TrimEnd(last)];
    } else {
      assert shown == init + [last];
      JoinSnoc(init, last, "\n");
      TrimEndAfter(Join(init, "\n") + "\n", last);
      JoinSnoc(init, TrimEnd(last), "\n");
    }
  }

  lemma NetworkLinesTrimmed(details: Json)
    ensures |Trim(NetworkLines(details))| == 0 <==> !ShowsSomething(details)
  {
    var a := LabelLine("URL", Get(details, "url"), "");
    var b := LabelLine("Status", Get(details, "status_code"), "");
    var c := LabelLine("Tempo de resposta", Get(details, "response_time_ms"), "ms");
    var d := LabelLine("Erro", Get(details, "error"), "");
    var s := NetworkLines(details);
    assert s == a + b + c + d;
    if ShowsSomething(details) {
      var i: nat;
      if |a| > 0 {
        i := 0;
      } else if |b| > 0 {
        i := |a|;
      } else if |c| > 0 {
        i := |a| + |b|;
      } else {
        assert |d| > 0;
        i := |a| + |b| + |c|;
      }
      assert i < |s| && s[i] == '*';
      assert !IsSpace(s[i]);
      var t := TrimStart(s);
      assert |t| > 0 && !IsSpace(t[0]);
      assert exists j :: 0 <= j < |t| && !IsSpace(t[j]);
    } else {
      assert s == "";
    }
  }

  /** A status code of 0 is falsy and leaves no line: the result is the same
      as without the field. */
  lemma StatusZeroOmitted(members: seq<Member>)
    requires forall i :: 0 <= i < |members| ==> members[i].key != "status_code"
    ensures NetworkEvidence(Obj(members + [Member("status_code", Number(Finite(0)))]))
      == NetworkEvidence(Obj(members))
  {
    var zero := Member("status_code", Number(Finite(0)));
    SanitizedAppend(members, zero);
    var b := SanitizedValue(Obj(members)).members;
    assert SanitizedEntry(zero.key, zero.value) == zero.value;
    assert SanitizedValue(Obj(members + [zero])) == Obj(b + [zero]);
    assert |b| == |members| && forall i :: 0 <= i < |b| ==> b[i].key == members[i].key;
    ZeroStatusLines(b, zero);
  }

  /** The detail lines ignore a falsy `status_code` appended to members
      without one. */
  lemma ZeroStatusLines(b: seq<Member>, zero: Member)
    requires forall i :: 0 <= i < |b| ==> b[i].key != "status_code"
    requires zero == Member("status_code", Number(Finite(0)))
    ensures NetworkLines(Obj(b + [zero])) == NetworkLines(Obj(b))
  {
    LookupAppend(b, zero, "url");
    LookupAppend(b, zero, "response_time_ms");
    LookupAppend(b, zero, "error");
    LookupAppend(b, zero, "status_code");
    assert !Truthy(Get(Obj(b + [zero]), "status_code"));
    assert Get(Obj(b), "status_code") == Undefined;
  }

  /** Looking a key up in members with one more member appended: the new
      member is found only when no earlier member has the key. */
  lemma {:induction false} LookupAppend(ms: seq<Member>, m: Member, key: string)
    ensures Lookup(ms + [m], key)
      == if (exists i :: 0 <= i < |ms| && ms[i].key == key) || m.key != key then Lookup(ms, key) else m.value
  {
    if |ms| > 0 {
      assert (ms + [m])[1..] == ms[1..] + [m];
      assert (ms + [m])[0] == ms[0];
      LookupAppend(ms[1..], m, key);
      if ms[0].key != key {
        assert (exists i :: 0 <= i < |ms| && ms[i].key == key) <==> (exists i :: 0 <= i < |ms[1..]| && ms[1..][i].key == key) by {
          if exists i :: 0 <= i < |ms| && ms[i].key == key {
            var i :| 0 <= i < |ms| && ms[i].key == key;
            assert ms[1..][i - 1].key == key;
          }
        }
      }
    }
  }
}
