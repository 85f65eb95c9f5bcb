/**
 * The validation step of the n8n intake workflow (n8n/workflows/script.js):
 * it takes the first incoming item, reads the alert from its `body` when
 * there is one, lists the required fields that are missing, and passes the
 * alert on with `isValid`, `missing` and `errorMessage` added.
 */
module Workflow {
  import opened Js

  const Required: seq<string> := ["service_name", "namespace", "pod_name", "error_message"]
  const MissingPrefix: string := "Campos obrigatórios faltando: "

  /** `item?.body ?? item` */
  function Payload(item: Json): (r: Json)
    ensures !Nullish(Get(item, "body")) ==> r == Get(item, "body")
    ensures Nullish(Get(item, "body")) ==> r == item
  {
    Coalesce(Get(item, "body"), item)
  }

  /** `xs` is `ys` with some entries dropped, the rest in order. */
  predicate SubsequenceOf(xs: seq<string>, ys: seq<string>)
    decreases |ys|
  {
    if |xs| == 0 then true
    else if |ys| == 0 then false
    else if xs[0] == ys[0] then SubsequenceOf(xs[1..], ys[1..])
    else SubsequenceOf(xs, ys[1..])
  }

  /** `fields.filter((field) => !payload?.[field])` */
  function MissingFields(fields: seq<string>, payload: Json): (r: seq<string>)
    ensures SubsequenceOf(r, fields)
    ensures forall f :: f in r <==> f in fields && !Truthy(Get(payload, f))
    decreases |fields|
  {
    if |fields| == 0 then []
    else
      var rest := MissingFields(fields[1..], payload);
      assert forall f :: f in fields <==> f == fields[0] || f in fields[1..];
      if !Truthy(Get(payload, fields[0])) then [fields[0]] + rest else rest
  }

  /** The own enumerable properties `{...v}` copies: an object's members, a
      string's characters and an array's items under their indices, nothing
      for any other value. */
  function Spread(v: Json): (r: seq<Member>)
    ensures v.Obj? ==> r == v.members
    ensures !v.Obj? && !v.Str? && !v.Arr? ==> r == []
  {
    match v
    case Obj(members) => members
    case Str(s) => seq(|s|, i requires 0 <= i < |s| => Member(NatToString(i), Str([s[i]])))
    case Arr(items) => seq(|items|, i requires 0 <= i < |items| => Member(NatToString(i), items[i]))
    case _ => []
  }

  /** Assigning a property in an object literal: an existing key keeps its
      place and takes the new value, a new key goes last. */
  function SetMember(members: seq<Member>, key: string, value: Json): (r: seq<Member>)
    ensures Lookup(r, key) == value
    ensures forall k :: k != key ==> Lookup(r, k) == Lookup(members, k)
    decreases |members|
  {
    if |members| == 0 then [Member(key, value)]
    else if members[0].key == key then [Member(key, value)] + members[1..]
    else
      var rest := SetMember(members[1..], key, value);
      [members[0]] + rest
  }

  /** The error text: the missing fields joined by commas, `null` when there
      are none. */
  function ErrorMessage(missing: seq<string>): (r: Json)
    ensures r == Null <==> |missing| == 0
    ensures |missing| > 0 ==> r == Str(MissingPrefix + Join(missing, ", "))
  {
    if |missing| > 0 then Str(MissingPrefix + Join(missing, ", ")) else Null
  }

  function StrList(xs: seq<string>): (r: Json)
    ensures r.Arr? && |r.items| == |xs|
    ensures forall i :: 0 <= i < |xs| ==> r.items[i] == Str(xs[i])
  {
    Arr(seq(|xs|, i requires 0 <= i < |xs| => Str(xs[i])))
  }

  /** The validated alert: the payload's properties, then `isValid`,
      `missing` and `errorMessage`. */
  function Validated(payload: Json): (r: seq<Member>)
  {
    var missing := MissingFields(Required, payload);
    var withValid := SetMember(Spread(payload), "isValid", Bool(|missing| == 0));
    var withMissing := SetMember(withValid, "missing", StrList(missing));
    SetMember(withMissing, "errorMessage", ErrorMessage(missing))
  }

  /** The script's result: one item whose `json` is the validated alert. */
  function Validate(item: Json): (r: seq<Json>)
    ensures |r| == 1 && r[0] == Obj([Member("json", Obj(Validated(Payload(item))))])
  {
    [Obj([Member("json", Obj(Validated(Payload(item))))])]
  }

  // ---------------------------------------------------------------------------
  // Properties

  /** The three properties the script sets, read back from the result. */
  lemma SetThreeFields(members: seq<Member>, valid: Json, missing: Json, message: Json)
    ensures var out := SetMember(SetMember(SetMember(members, "isValid", valid), "missing", missing),
                                 "errorMessage", message);
      Lookup(out, "isValid") == valid && Lookup(out, "missing") == missing && Lookup(out, "errorMessage") == message
  {
    var withValid := SetMember(members, "isValid", valid);
    var withMissing := SetMember(withValid, "missing", missing);
    assert "isValid" != "missing" && "isValid" != "errorMessage" && "missing" != "errorMessage";
    assert Lookup(withMissing, "isValid") == valid;
  }

  /** `isValid` holds exactly when nothing is missing, and then the error
      text is `null`; otherwise it names the missing fields. */
  lemma ValidityFields(payload: Json)
    ensures var out := Validated(payload); var missing := MissingFields(Required, payload);
      && Lookup(out, "isValid") == Bool(|missing| == 0)
      && Lookup(out, "missing") == StrList(missing)
      && Lookup(out, "errorMessage") == ErrorMessage(missing)
  {
    var missing := MissingFields(Required, payload);
    SetThreeFields(Spread(payload), Bool(|missing| == 0), StrList(missing), ErrorMessage(missing));
  }

  /** Every other property of the payload passes through unchanged, a
      payload's own `isValid`, `missing` or `errorMessage` being replaced. */
  lemma PayloadFieldsKept(payload: Json, k: string)
    requires k != "isValid" && k != "missing" && k != "errorMessage"
    ensures Lookup(Validated(payload), k) == Lookup(Spread(payload), k)
  {
  }

  /** Nothing is missing exactly when every listed field is truthy. */
  lemma NoneMissingIff(fields: seq<string>, payload: Json)
    ensures |MissingFields(fields, payload)| == 0 <==> forall i :: 0 <= i < |fields| ==> Truthy(Get(payload, fields[i]))
  {
    var missing := MissingFields(fields, payload);
    if |missing| > 0 {
      assert missing[0] in missing;
    } else {
      forall i | 0 <= i < |fields| ensures Truthy(Get(payload, fields[i])) {
        assert fields[i] !in missing;
      }
    }
  }

  /** The alert is valid exactly when the four required fields are all
      truthy. */
  lemma ValidIffRequiredPresent(payload: Json)
    ensures Lookup(Validated(payload), "isValid") == Bool(
      Truthy(Get(payload, "service_name")) && Truthy(Get(payload, "namespace"))
      && Truthy(Get(payload, "pod_name")) && Truthy(Get(payload, "error_message")))
  {
    ValidityFields(payload);
    NoneMissingIff(Required, payload);
    var present := forall i :: 0 <= i < |Required| ==> Truthy(Get(payload, Required[i]));
    assert present <==> (Truthy(Get(payload, Required[0])) && Truthy(Get(payload, Required[1]))
      && Truthy(Get(payload, Required[2])) && Truthy(Get(payload, Required[3])));
  }

  /** An item without a `body` is validated as it stands. */
  lemma ItemWithoutBody(item: Json)
    requires Nullish(Get(item, "body"))
    ensures Validate(item)[0] == Obj([Member("json", Obj(Validated(item)))])
  {
  }
}
