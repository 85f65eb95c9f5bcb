/**
 * The ticket routes of the HTTP API (api/src/routes/tickets.ts): reading one
 * diagnosis ticket, listing tickets a page at a time, and recording feedback.
 * The database is a parameter: each handler returns the reply together with
 * the statements it sends, and the outcome of those statements is passed in.
 * Query-string numbers are exact rationals (`real`), so fractional limits and
 * pages behave as they do in JavaScript.
 */
module Tickets {
  import opened Js

  const DefaultLimit: real := 20.0
  const MaxLimit: real := 100.0

  const BadRequest: string := "Requisição inválida"
  const NotFound: string := "Recurso não encontrado"
  const InternalError: string := "Erro interno"

  // ---------------------------------------------------------------------------
  // Number(x) on query values

  function Pow10(n: nat): (r: nat)
    ensures r >= 1
  {
    if n == 0 then 1 else 10 * Pow10(n - 1)
  }

  /** Digits after a decimal point. */
  function FractionValue(s: string): (r: real)
    requires AllDigits(s)
    ensures r >= 0.0
  {
    DigitsValue(s) as real / Pow10(|s|) as real
  }

  /** An unsigned decimal: digits with at most one point and at least one
      digit. */
  function UnsignedDecimal(u: string): (r: Option<real>)
    ensures r.Some? ==> r.value >= 0.0
  {
    var parts := Split(u, '.');
    if |parts| == 1 && |u| > 0 && AllDigits(parts[0]) then Some(DigitsValue(parts[0]) as real)
    else if |parts| == 2 && AllDigits(parts[0]) && AllDigits(parts[1]) && |parts[0]| + |parts[1]| > 0 then
      Some(DigitsValue(parts[0]) as real + FractionValue(parts[1]))
    else None
  }

  /** `Number(s)` for a string when it is finite: white space trimmed, the
      empty string 0, an optional sign before an unsigned decimal. */
  function DecimalText(s: string): (r: Option<real>)
  {
    var t := Trim(s);
    if |t| == 0 then Some(0.0)
    else if t[0] == '-' then
      var u := UnsignedDecimal(t[1..]);
      if u.Some? then Some(-u.value) else None
    else if t[0] == '+' then UnsignedDecimal(t[1..])
    else UnsignedDecimal(t)
  }

  /** `Number(v)` when the result is finite, `None` for NaN and the
      infinities. */
  function QueryNumber(v: Json): (r: Option<real>)
    ensures v.Undefined? ==> r.None?
    ensures v.Null? ==> r == Some(0.0)
    ensures v.Number? && v.num.Finite? ==> r == Some(v.num.n as real)
  {
    match v
    case Undefined => None
    case Null => Some(0.0)
    case Bool(b) => Some(if b then 1.0 else 0.0)
    case Number(n) => if n.Finite? then Some(n.n as real) else None
    case _ => DecimalText(ToStr(v))
  }

  /** The decimal text of a whole number reads back as that number. */
  lemma QueryNumberNatText(n: nat)
    ensures QueryNumber(Str(NatToString(n))) == Some(n as real)
  {
    DigitsOfNat(n);
    DecimalTextOfDigits(NatToString(n));
  }

  /** A run of digits reads as its value. */
  lemma DecimalTextOfDigits(t: string)
    requires |t| > 0 && AllDigits(t)
    ensures DecimalText(t) == Some(DigitsValue(t) as real)
  {
    assert IsDigit(t[0]);
    assert t[0] != '-' && t[0] != '+';
    DigitsTrimmed(t);
    UnsignedAfterTrim(t);
    DigitsUnsigned(t);
  }

  /** An untouched, unsigned text is read by `UnsignedDecimal`. */
  lemma UnsignedAfterTrim(t: string)
    requires Trim(t) == t && |t| > 0 && t[0] != '-' && t[0] != '+'
    ensures DecimalText(t) == UnsignedDecimal(t)
  {
  }

  lemma DigitsTrimmed(t: string)
    requires |t| > 0 && AllDigits(t)
    ensures Trim(t) == t
  {
    assert IsDigit(t[0]) && IsDigit(t[|t| - 1]);
    assert TrimStart(t) == t;
  }

  lemma DigitsUnsigned(t: string)
    requires |t| > 0 && AllDigits(t)
    ensures UnsignedDecimal(t) == Some(DigitsValue(t) as real)
  {
    assert '.' !in t by {
      forall i | 0 <= i < |t| ensures t[i] != '.' {
        assert IsDigit(t[i]);
      }
    }
    SplitWithoutSeparator(t, '.');
  }

  lemma {:induction false} DigitsOfNat(n: nat)
    ensures AllDigits(NatToString(n)) && DigitsValue(NatToString(n)) == n
    decreases n
  {
    var t := NatToString(n);
    if n >= 10 {
      DigitsOfNat(n / 10);
      var d := n % 10;
      assert t[..|t| - 1] == NatToString(n / 10) && t[|t| - 1] == DigitChar(d);
      assert (DigitChar(d) - '0') as nat == d;
    } else {
      assert (DigitChar(n) - '0') as nat == n;
      assert t[..0] == [];
    }
  }

  /** `undefined`, `null` or the empty string: a parameter left blank. */
  predicate Blank(v: Json) {
    v.Undefined? || v.Null? || v == Str("")
  }

  function Floor(x: real): (r: int)
    ensures r as real <= x < r as real + 1.0
  {
    x.Floor
  }

  function Ceil(x: real): (r: int)
    ensures r as real - 1.0 < x <= r as real
  {
    -((-x).Floor)
  }

  // ---------------------------------------------------------------------------
  // Query parameters

  /** `parseLimit(value)`: 20 when blank, refused unless a positive finite
      number, capped at 100. */
  function ParseLimit(v: Json): (r: Option<real>)
    ensures Blank(v) ==> r == Some(DefaultLimit)
    ensures r.Some? ==> 0.0 < r.value <= MaxLimit
    ensures !Blank(v) ==> (r.Some? <==> QueryNumber(v).Some? && QueryNumber(v).value > 0.0)
    ensures !Blank(v) && r.Some? ==> (r.value <= QueryNumber(v).value
      && (r.value == QueryNumber(v).value || r.value == MaxLimit))
  {
    if Blank(v) then Some(DefaultLimit)
    else
      var parsed := QueryNumber(v);
      if parsed.None? || parsed.value <= 0.0 then None
      else if parsed.value < MaxLimit then parsed
      else Some(MaxLimit)
  }

  /** `parseOffset(value)`: 0 when blank, refused unless a finite number at
      least 0, otherwise as given. */
  function ParseOffset(v: Json): (r: Option<real>)
    ensures Blank(v) ==> r == Some(0.0)
    ensures r.Some? ==> r.value >= 0.0
    ensures !Blank(v) ==> (r.Some? <==> QueryNumber(v).Some? && QueryNumber(v).value >= 0.0)
    ensures !Blank(v) && r.Some? ==> r.value == QueryNumber(v).value
  {
    if Blank(v) then Some(0.0)
    else
      var parsed := QueryNumber(v);
      if parsed.None? || parsed.value < 0.0 then None else parsed
  }

  /** `parsePage(value)`: absent when blank or not a positive finite
      number, otherwise rounded down, so a page between 0 and 1 becomes 0. */
  function ParsePage(v: Json): (r: Option<int>)
    ensures Blank(v) ==> r.None?
    ensures !Blank(v) ==> (r.Some? <==> QueryNumber(v).Some? && QueryNumber(v).value > 0.0)
    ensures r.Some? ==> (r.value >= 0
      && r.value as real <= QueryNumber(v).value < r.value as real + 1.0)
  {
    if Blank(v) then None
    else
      var parsed := QueryNumber(v);
      if parsed.None? || parsed.value <= 0.0 then None else Some(Floor(parsed.value))
  }

  // ---------------------------------------------------------------------------
  // Statements and replies

  /** A bound parameter of a statement. */
  datatype Param = PText(text: string) | PNumber(number: real) | PValue(value: Json)

  datatype Statement = Statement(text: string, params: seq<Param>)

  /** A reply: an RFC 7807 problem (status, title, detail), or a body. The
      problem's `type` is always `about:blank` and its `instance` the request
      URL. */
  datatype Reply =
    | Problem(status: int, title: string, detail: string)
    | TicketBody(row: Json)
    | PageBody(rows: seq<Json>, page: int, size: real, total: nat, totalPages: int)
    | FeedbackRecorded
    | Thrown

  /** What a handler does: the statements it sends, and its reply. */
  datatype Handled = Handled(statements: seq<Statement>, reply: Reply)

  /** The outcome of a statement. */
  datatype Db<T> = Done(value: T) | Failed

  // ---------------------------------------------------------------------------
  // Ticket ids

  predicate IsHexDigit(c: char) {
    '0' <= c <= '9' || 'a' <= c <= 'f' || 'A' <= c <= 'F'
  }

  predicate AllHex(s: string) {
    forall i :: 0 <= i < |s| ==> IsHexDigit(s[i])
  }

  /** The id pattern: 8-4-4-4-12 hexadecimal digits of either case. */
  predicate IsUuid(s: string) {
    |s| == 36 && forall i :: 0 <= i < 36 ==>
      if i == 8 || i == 13 || i == 18 || i == 23 then s[i] == '-' else IsHexDigit(s[i])
  }

  /** Every accepted id is five hexadecimal groups joined by dashes. */
  lemma UuidGroups(s: string)
    requires IsUuid(s)
    ensures s == s[..8] + "-" + s[9..13] + "-" + s[14..18] + "-" + s[19..23] + "-" + s[24..]
    ensures AllHex(s[..8]) && AllHex(s[9..13]) && AllHex(s[14..18]) && AllHex(s[19..23]) && AllHex(s[24..])
    ensures |s[24..]| == 12
  {
    assert AllHex(s[9..13]) by {
      forall i | 0 <= i < 4 ensures IsHexDigit(s[9..13][i]) { assert s[9..13][i] == s[9 + i]; }
    }
    assert AllHex(s[14..18]) by {
      forall i | 0 <= i < 4 ensures IsHexDigit(s[14..18][i]) { assert s[14..18][i] == s[14 + i]; }
    }
    assert AllHex(s[19..23]) by {
      forall i | 0 <= i < 4 ensures IsHexDigit(s[19..23][i]) { assert s[19..23][i] == s[19 + i]; }
    }
    assert AllHex(s[24..]) by {
      forall i | 0 <= i < 12 ensures IsHexDigit(s[24..][i]) { assert s[24..][i] == s[24 + i]; }
    }
  }

  /** Five hexadecimal groups of lengths 8, 4, 4, 4 and 12 joined by dashes
      form an accepted id. */
  lemma UuidFromGroups(a: string, b: string, c: string, d: string, e: string)
    requires |a| == 8 && |b| == 4 && |c| == 4 && |d| == 4 && |e| == 12
    requires AllHex(a) && AllHex(b) && AllHex(c) && AllHex(d) && AllHex(e)
    ensures IsUuid(a + "-" + b + "-" + c + "-" + d + "-" + e)
  {
    var s := a + "-" + b + "-" + c + "-" + d + "-" + e;
    forall i | 0 <= i < 36
      ensures if i == 8 || i == 13 || i == 18 || i == 23 then s[i] == '-' else IsHexDigit(s[i])
    {
      if i < 8 { assert s[i] == a[i]; }
      else if 8 < i < 13 { assert s[i] == b[i - 9]; }
      else if 13 < i < 18 { assert s[i] == c[i - 14]; }
      else if 18 < i < 23 { assert s[i] == d[i - 19]; }
      else if 23 < i { assert s[i] == e[i - 24]; }
    }
  }

  // ---------------------------------------------------------------------------
  // GET /:id

  const TicketQuery: string :=
    "SELECT id, created_at, service_name, namespace, classification,\n"
    + "              diagnosis_report, root_cause, suggestions, alert_payload\n"
    + "       FROM diagnosis_tickets WHERE id = $1"

  /** The id is checked before any statement is sent; no row is a 404 and a
      failed statement a 500. */
  function GetTicket(id: string, result: Db<seq<Json>>): (r: Handled)
    ensures !IsUuid(id) <==> r.statements == []
    ensures !IsUuid(id) ==> r.reply == Problem(400, BadRequest, "ID inválido")
    ensures IsUuid(id) ==> r.statements == [Statement(TicketQuery, [PText(id)])]
    ensures IsUuid(id) && result.Failed? ==> r.reply == Problem(500, InternalError, "Falha ao consultar ticket")
    ensures IsUuid(id) && result.Done? && |result.value| == 0 ==> r.reply == Problem(404, NotFound, "Ticket não encontrado")
    ensures IsUuid(id) && result.Done? && |result.value| > 0 ==> r.reply == TicketBody(result.value[0])
  {
    if !IsUuid(id) then Handled([], Problem(400, BadRequest, "ID inválido"))
    else
      var statements := [Statement(TicketQuery, [PText(id)])];
      match result
      case Failed => Handled(statements, Problem(500, InternalError, "Falha ao consultar ticket"))
      case Done(rows) =>
        if |rows| == 0 then Handled(statements, Problem(404, NotFound, "Ticket não encontrado"))
        else Handled(statements, TicketBody(rows[0]))
  }

  // ---------------------------------------------------------------------------
  // GET /

  /** The list route's query string. */
  datatype ListRequest = ListRequest(service: Json, limit: Json, offset: Json, page: Json, size: Json)

  /** What the list route settles on before it queries. */
  datatype ListPlan = ListPlan(service: Option<string>, limit: real, offset: real, page: int)

  datatype Checked<T> = Valid(value: T) | Invalid(detail: string)

  /** The offset when none is given: the page's first row, page 1 when no
      page is given. */
  function PageOffset(page: Option<int>, limit: real): (r: real)
    requires limit > 0.0
    ensures r >= 0.0
    ensures page.None? ==> r == 0.0
    ensures page.Some? && page.value > 0 ==> r == (page.value - 1) as real * limit
  {
    var p := page.GetOr(1);
    if p > 0 then (p - 1) as real * limit else 0.0
  }

  /** The offset used: `offset` when given, else the page's first row. */
  function ChosenOffset(offset: Json, pageValue: Option<int>, limit: real): (r: Option<real>)
    requires limit > 0.0
    ensures !offset.Undefined? ==> r == ParseOffset(offset)
    ensures offset.Undefined? ==> r == Some(PageOffset(pageValue, limit))
  {
    if !offset.Undefined? then ParseOffset(offset) else Some(PageOffset(pageValue, limit))
  }

  /** The page reported: `_page` when given, else the page the offset falls
      in. */
  function ReportedPage(pageProvided: bool, pageValue: Option<int>, offset: real, limit: real): (r: int)
    requires limit > 0.0
    ensures pageProvided ==> r == pageValue.GetOr(1)
    ensures !pageProvided ==> (r - 1) as real * limit <= offset < r as real * limit
  {
    if pageProvided then pageValue.GetOr(1)
    else
      var page := Floor(offset / limit) + 1;
      OffsetInPage(offset, limit, page);
      page
  }

  /** The service filter is absent or a string. */
  predicate ServiceOk(q: ListRequest) {
    !Truthy(q.service) || q.service.Str?
  }

  /** `_page` is blank or a positive finite number. */
  predicate PageOk(q: ListRequest) {
    Blank(q.page) || ParsePage(q.page).Some?
  }

  /** The validation and the arithmetic of the list route, in its order:
      service, limit (`limit`, else `_size`), `_page`, offset. Each check
      refuses with its own detail once the earlier ones pass, and a request
      that passes all four is accepted. */
  function PlanList(q: ListRequest): (r: Checked<ListPlan>)
    ensures !ServiceOk(q) ==> r == Invalid("service deve ser string")
    ensures ServiceOk(q) && ParseLimit(Coalesce(q.limit, q.size)).None? ==> r == Invalid("limit inválido")
    ensures ServiceOk(q) && ParseLimit(Coalesce(q.limit, q.size)).Some? && !PageOk(q) ==>
      r == Invalid("_page inválido")
    ensures (ServiceOk(q) && ParseLimit(Coalesce(q.limit, q.size)).Some? && PageOk(q)
      && ChosenOffset(q.offset, ParsePage(q.page), ParseLimit(Coalesce(q.limit, q.size)).value).None?) ==>
      r == Invalid("offset inválido")
    ensures r.Valid? <==> (ServiceOk(q) && ParseLimit(Coalesce(q.limit, q.size)).Some? && PageOk(q)
      && ChosenOffset(q.offset, ParsePage(q.page), ParseLimit(Coalesce(q.limit, q.size)).value).Some?)
    ensures r.Valid? ==> (0.0 < r.value.limit <= MaxLimit && r.value.offset >= 0.0
      && ParseLimit(Coalesce(q.limit, q.size)) == Some(r.value.limit)
      && ChosenOffset(q.offset, ParsePage(q.page), r.value.limit) == Some(r.value.offset)
      && r.value.page == ReportedPage(!Blank(q.page), ParsePage(q.page), r.value.offset, r.value.limit))
    ensures r.Valid? ==> r.value.service.Some? == Truthy(q.service)
    ensures r.Valid? && r.value.service.Some? ==> Str(r.value.service.value) == q.service
    ensures r.Valid? && !Blank(q.page) ==> ParsePage(q.page).Some?
    ensures r.Invalid? ==> r.detail in {"service deve ser string", "limit inválido", "_page inválido", "offset inválido"}
  {
    if Truthy(q.service) && !q.service.Str? then Invalid("service deve ser string")
    else
      var limit := ParseLimit(Coalesce(q.limit, q.size));
      if limit.None? then Invalid("limit inválido")
      else
        var pageProvided := !Blank(q.page);
        var pageValue := ParsePage(q.page);
        if pageProvided && pageValue.None? then Invalid("_page inválido")
        else
          var offset := ChosenOffset(q.offset, pageValue, limit.value);
          if offset.None? then Invalid("offset inválido")
          else
            var page := ReportedPage(pageProvided, pageValue, offset.value, limit.value);
            Valid(ListPlan(if Truthy(q.service) then Some(q.service.s) else None, limit.value, offset.value, page))
  }

  /** Multiplying `k <= x / d` through by a positive `d`. */
  lemma ScaleAtLeast(x: real, d: real, k: real)
    requires d > 0.0 && k <= x / d
    ensures k * d <= x
  {
    var y := x / d;
    assert x == y * d;
    assert (y - k) * d >= 0.0;
  }

  /** Multiplying `x / d < k` through by a positive `d`. */
  lemma ScaleBelow(x: real, d: real, k: real)
    requires d > 0.0 && x / d < k
    ensures x < k * d
  {
    var y := x / d;
    assert x == y * d;
    assert (k - y) * d > 0.0;
  }

  /** Multiplying `x / d <= k` through by a positive `d`. */
  lemma ScaleAtMost(x: real, d: real, k: real)
    requires d > 0.0 && x / d <= k
    ensures x <= k * d
  {
    var y := x / d;
    assert x == y * d;
    assert (k - y) * d >= 0.0;
  }

  /** Multiplying `k < x / d` through by a positive `d`. */
  lemma ScaleAbove(x: real, d: real, k: real)
    requires d > 0.0 && k < x / d
    ensures k * d < x
  {
    var y := x / d;
    assert x == y * d;
    assert (y - k) * d > 0.0;
  }

  /** An offset lies in the page computed from it. */
  lemma OffsetInPage(offset: real, limit: real, page: int)
    requires limit > 0.0 && page == Floor(offset / limit) + 1
    ensures (page - 1) as real * limit <= offset < page as real * limit
  {
    var k := page - 1;
    ScaleAtLeast(offset, limit, k as real);
    ScaleBelow(offset, limit, k as real + 1.0);
  }

  /** The first row of a whole page maps back to that page. */
  lemma WholePageRoundTrip(p: int, limit: real)
    requires p >= 1 && limit > 0.0
    ensures ReportedPage(false, None, PageOffset(Some(p), limit), limit) == p
  {
    var offset := PageOffset(Some(p), limit);
    assert offset == (p - 1) as real * limit;
    DivideExact((p - 1) as real, limit);
    assert offset / limit == (p - 1) as real;
    FloorOfWhole(p - 1);
    assert Floor(offset / limit) + 1 == p;
  }

  lemma FloorOfWhole(k: int)
    ensures Floor(k as real) == k
  {
  }

  lemma DivideExact(k: real, d: real)
    requires d > 0.0
    ensures (k * d) / d == k
  {
  }

  /** Nothing given: twenty rows from the first, reported as page 1. */
  lemma ListDefaults()
    ensures PlanList(ListRequest(Undefined, Undefined, Undefined, Undefined, Undefined))
      == Valid(ListPlan(None, DefaultLimit, 0.0, 1))
  {
  }

  /** `limit` wins over `_size`: with a limit given, `_size` is not read. */
  lemma LimitOverridesSize(q: ListRequest, size: Json)
    requires !Nullish(q.limit)
    ensures PlanList(q) == PlanList(q.(size := size))
  {
  }

  /** A whole page number with no offset selects that page's first row and
      is reported back. */
  lemma PageSelectsItsRows(q: ListRequest, p: int)
    requires q.page == Number(Finite(p)) && p >= 1 && q.offset.Undefined?
    requires PlanList(q).Valid?
    ensures var plan := PlanList(q).value;
      plan.offset == PageOffset(Some(p), plan.limit) && plan.page == p
  {
    assert ParsePage(q.page) == Some(p);
  }

  /** A page strictly between 0 and 1 is accepted, rounds down to 0, starts
      at the first row and is reported as page 0. */
  lemma FractionalPageIsPageZero(q: ListRequest, x: real)
    requires !Blank(q.page) && QueryNumber(q.page) == Some(x) && 0.0 < x < 1.0
    requires q.offset.Undefined? && PlanList(q).Valid?
    ensures PlanList(q).value.page == 0 && PlanList(q).value.offset == 0.0
  {
    assert ParsePage(q.page) == Some(0);
  }

  /** `totalPages`: at least one page, and just enough pages for `total`
      rows. */
  function TotalPages(total: nat, limit: real): (r: int)
    ensures r >= 1
    ensures limit > 0.0 ==> total as real <= r as real * limit
    ensures limit > 0.0 && r > 1 ==> (r - 1) as real * limit < total as real
  {
    if limit > 0.0 then
      var c := Ceil(total as real / limit);
      ScaleAtMost(total as real, limit, c as real);
      ScaleAbove(total as real, limit, c as real - 1.0);
      if c > 1 then c else 1
    else 1
  }

  const ListQueryBase: string :=
    "\n    SELECT id, created_at, service_name, namespace, classification, root_cause\n    FROM diagnosis_tickets\n  "
  const ServiceFilter: string := " WHERE service_name = $1"
  const ListOrder: string := " ORDER BY created_at DESC LIMIT $"

  /** The list statement: filtered by service with `$1` when there is one,
      then LIMIT and OFFSET bound to the next two placeholders. */
  function ListStatement(service: Option<string>, limit: real, offset: real): (r: Statement)
  {
    if service.Some? then
      Statement(ListQueryBase + ServiceFilter + ListOrder + "2 OFFSET $3", [PText(service.value), PNumber(limit), PNumber(offset)])
    else
      Statement(ListQueryBase + ListOrder + "1 OFFSET $2", [PNumber(limit), PNumber(offset)])
  }

  /** The list statement as the route assembles it: the text extended and
      the parameters pushed step by step, the placeholders numbered from
      the parameters already pushed. */
  method BuildListStatement(service: Option<string>, limit: real, offset: real) returns (r: Statement)
    ensures r == ListStatement(service, limit, offset)
  {
    SmallNumerals();
    var query := ListQueryBase;
    var params: seq<Param> := [];
    if service.Some? {
      query := query + ServiceFilter;
      params := params + [PText(service.value)];
    }
    query := query + ListOrder + NatToString(|params| + 1) + " OFFSET $" + NatToString(|params| + 2);
    params := params + [PNumber(limit), PNumber(offset)];
    r := Statement(query, params);
  }

  /** Each placeholder names the parameter it is meant for: `$1` the
      service when there is one, the last two LIMIT and OFFSET. */
  lemma ListPlaceholders(service: Option<string>, limit: real, offset: real)
    ensures var s := ListStatement(service, limit, offset); var n := |s.params|;
      && n == (if service.Some? then 3 else 2)
      && s.params[n - 2] == PNumber(limit) && s.params[n - 1] == PNumber(offset)
      && s.text == ListQueryBase + (if service.Some? then ServiceFilter else "") + ListOrder
           + NatToString(n - 1) + " OFFSET $" + NatToString(n)
      && (service.Some? ==> s.params[0] == PText(service.value))
  {
    SmallNumerals();
    var s := ListStatement(service, limit, offset);
    if service.Some? {
      assert s.text == ListQueryBase + ServiceFilter + ListOrder + NatToString(2) + " OFFSET $" + NatToString(3);
    } else {
      assert ListQueryBase + "" == ListQueryBase;
      assert s.text == ListQueryBase + ListOrder + NatToString(1) + " OFFSET $" + NatToString(2);
    }
  }

  lemma SmallNumerals()
    ensures NatToString(1) == "1" && NatToString(2) == "2" && NatToString(3) == "3"
  {
  }

  /** The count statement, filtered the same way. */
  function CountStatement(service: Option<string>): (r: Statement)
    ensures service.Some? <==> |r.params| == 1
    ensures service.Some? ==> r.params == [PText(service.value)]
  {
    var text := "SELECT COUNT(*)::int AS total\n         FROM diagnosis_tickets\n         ";
    if service.Some? then Statement(text + "WHERE service_name = $1", [PText(service.value)])
    else Statement(text, [])
  }

  /** `GET /`: a 400 for a bad parameter before any statement; otherwise the
      page and count statements, and the page of rows with its pagination. */
  function ListTickets(q: ListRequest, rows: Db<seq<Json>>, count: Db<nat>): (r: Handled)
    ensures PlanList(q).Invalid? <==> r.statements == []
    ensures PlanList(q).Invalid? ==> r.reply == Problem(400, BadRequest, PlanList(q).detail)
    ensures PlanList(q).Valid? ==> var plan := PlanList(q).value;
      && r.statements == [ListStatement(plan.service, plan.limit, plan.offset), CountStatement(plan.service)]
      && (rows.Failed? || count.Failed? ==> r.reply == Problem(500, InternalError, "Falha ao consultar tickets"))
      && (rows.Done? && count.Done? ==>
            r.reply == PageBody(rows.value, plan.page, plan.limit, count.value, TotalPages(count.value, plan.limit)))
  {
    match PlanList(q)
    case Invalid(detail) => Handled([], Problem(400, BadRequest, detail))
    case Valid(plan) =>
      var statements := [ListStatement(plan.service, plan.limit, plan.offset), CountStatement(plan.service)];
      if rows.Failed? || count.Failed? then Handled(statements, Problem(500, InternalError, "Falha ao consultar tickets"))
      else Handled(statements, PageBody(rows.value, plan.page, plan.limit, count.value, TotalPages(count.value, plan.limit)))
  }

  // ---------------------------------------------------------------------------
  // POST /:id/feedback

  const FeedbackUpdate: string :=
    "UPDATE diagnosis_tickets\n"
    + "       SET feedback_useful = $1, feedback_applied = $2, feedback_comment = $3,\n"
    + "           feedback_at = NOW(), updated_at = NOW()\n"
    + "       WHERE id = $4\n"
    + "       RETURNING id"

  /** `POST /:id/feedback`: reading `useful`, `applied` and `comment` from a
      missing body throws before anything else; then the id check, then the
      two booleans, then the update, whose `RETURNING` row tells whether the
      ticket exists. */
  function RecordFeedback(id: string, body: Json, result: Db<seq<Json>>): (r: Handled)
    ensures Nullish(body) ==> r == Handled([], Thrown)
    ensures !Nullish(body) && !IsUuid(id) ==> r == Handled([], Problem(400, BadRequest, "ID inválido"))
    ensures !Nullish(body) && IsUuid(id) && !(Get(body, "useful").Bool? && Get(body, "applied").Bool?)
      ==> r == Handled([], Problem(400, BadRequest, "Campos useful e applied são obrigatórios (boolean)"))
    ensures r.statements != [] <==> !Nullish(body) && IsUuid(id) && Get(body, "useful").Bool? && Get(body, "applied").Bool?
    ensures r.statements != [] ==> r.statements == [Statement(FeedbackUpdate,
      [PValue(Get(body, "useful")), PValue(Get(body, "applied")), PValue(Coalesce(Get(body, "comment"), Null)), PText(id)])]
    ensures r.statements != [] && result.Failed? ==> r.reply == Problem(500, InternalError, "Falha ao registrar feedback")
    ensures r.statements != [] && result.Done? ==>
      r.reply == (if |result.value| == 0 then Problem(404, NotFound, "Ticket não encontrado") else FeedbackRecorded)
  {
    if Nullish(body) then Handled([], Thrown)
    else
      var useful := Get(body, "useful");
      var applied := Get(body, "applied");
      var comment := Get(body, "comment");
      if !IsUuid(id) then Handled([], Problem(400, BadRequest, "ID inválido"))
      else if !useful.Bool? || !applied.Bool? then
        Handled([], Problem(400, BadRequest, "Campos useful e applied são obrigatórios (boolean)"))
      else
        var statements := [Statement(FeedbackUpdate, [PValue(useful), PValue(applied), PValue(Coalesce(comment, Null)), PText(id)])];
        match result
        case Failed => Handled(statements, Problem(500, InternalError, "Falha ao registrar feedback"))
        case Done(rows) =>
          if |rows| == 0 then Handled(statements, Problem(404, NotFound, "Ticket não encontrado"))
          else Handled(statements, FeedbackRecorded)
  }

  /** A bad id is refused before the body is checked: an invalid id with an
      invalid body reports the id. */
  lemma IdCheckedBeforeBody(id: string, body: Json, result: Db<seq<Json>>)
    requires body.Obj? && !IsUuid(id) && !Get(body, "useful").Bool?
    ensures RecordFeedback(id, body, result).reply.detail == "ID inválido"
  {
  }

  /** A missing comment is stored as SQL NULL. */
  lemma MissingCommentIsNull(id: string, body: Json, result: Db<seq<Json>>)
    requires IsUuid(id) && body.Obj? && Get(body, "useful").Bool? && Get(body, "applied").Bool?
    requires Nullish(Get(body, "comment"))
    ensures RecordFeedback(id, body, result).statements[0].params[2] == PValue(Null)
  {
  }
}
