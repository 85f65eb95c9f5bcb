/**
 * `sanitizeObjectValues` (n8n/report/report-generator.js, lines 37-54): the
 * walk over the report input that replaces every string stored under a
 * sensitive key by the marker and passes every other string of an object
 * through `sanitizeText`.
 */
module ValueRedaction {
  import opened Js
  import opened Redaction

  // ---------------------------------------------------------------------------
  // Specification

  /** `sanitizeObjectValues(v)`: arrays and objects are rebuilt entry by entry;
      anything else (falsy values, strings, numbers, booleans) comes back as
      it is. The keys of an array's entries are its indices. */
  function SanitizedValue(v: Json): (r: Json)
    ensures v.Arr? <==> r.Arr?
    ensures v.Obj? <==> r.Obj?
    ensures !v.Arr? && !v.Obj? ==> r == v
    decreases v, 0
  {
    match v
    case Arr(items) =>
      Arr(seq(|items|, i requires 0 <= i < |items| => SanitizedEntry(NatToString(i), items[i])))
    case Obj(members) =>
      Obj(seq(|members|, i requires 0 <= i < |members| =>
        Member(members[i].key, SanitizedEntry(members[i].key, members[i].value))))
    case _ => v
  }

  /** The value stored under `key` in the output: a string is replaced by the
      marker when the key is sensitive and sanitized otherwise; an array is
      mapped through `sanitizeObjectValues`; an object is sanitized in turn;
      anything else is copied. */
  function SanitizedEntry(key: string, value: Json): (r: Json)
    ensures value.Str? ==> r.Str?
    ensures value.Str? && SensitiveKey(key) ==> r == Str(Redacted)
    ensures value.Str? && !SensitiveKey(key) ==> r == Str(SanitizeText(value))
    decreases value, 1
  {
    match value
    case Str(_) => if SensitiveKey(key) then Str(Redacted) else Str(SanitizeText(value))
    case Arr(items) => Arr(seq(|items|, i requires 0 <= i < |items| => SanitizedValue(items[i])))
    case Obj(_) => SanitizedValue(value)
    case _ => value
  }

  // ---------------------------------------------------------------------------
  // The walk itself

  /** `sanitizeObjectValues(obj)`: the `forEach` over `Object.entries(obj)`
      that fills the output array or object. */
  method SanitizeObjectValues(v: Json) returns (r: Json)
    ensures r == SanitizedValue(v)
    decreases v, 0
  {
    match v {
      case Arr(items) =>
        var output: seq<Json> := [];
        var i := 0;
        while i < |items|
          invariant 0 <= i <= |items|
          invariant |output| == i
          invariant forall j :: 0 <= j < i ==> output[j] == SanitizedEntry(NatToString(j), items[j])
        {
          var value := SanitizeEntry(NatToString(i), items[i]);
          output := output + [value];
          i := i + 1;
        }
        assert output == SanitizedValue(v).items;
        r := Arr(output);
      case Obj(members) =>
        var output: seq<Member> := [];
        var i := 0;
        while i < |members|
          invariant 0 <= i <= |members|
          invariant |output| == i
          invariant forall j :: 0 <= j < i ==>
            output[j] == Member(members[j].key, SanitizedEntry(members[j].key, members[j].value))
        {
          var value := SanitizeEntry(members[i].key, members[i].value);
          output := output + [Member(members[i].key, value)];
          i := i + 1;
        }
        assert output == SanitizedValue(v).members;
        r := Obj(output);
      case _ =>
        r := v;
    }
  }

  /** The body of the `forEach` callback for one entry. */
  method SanitizeEntry(key: string, value: Json) returns (r: Json)
    ensures r == SanitizedEntry(key, value)
    decreases value, 1
  {
    match value {
      case Str(_) =>
        if SensitiveKey(key) {
          r := Str(Redacted);
        } else {
          r := Str(SanitizeText(value));
        }
      case Arr(items) =>
        var mapped: seq<Json> := [];
        var i := 0;
        while i < |items|
          invariant 0 <= i <= |items|
          invariant |mapped| == i
          invariant forall j :: 0 <= j < i ==> mapped[j] == SanitizedValue(items[j])
        {
          var item := SanitizeObjectValues(items[i]);
          mapped := mapped + [item];
          i := i + 1;
        }
        r := Arr(mapped);
      case Obj(_) =>
        r := SanitizeObjectValues(value);
      case _ =>
        r := value;
    }
  }

  // ---------------------------------------------------------------------------
  // Properties

  /** Same tree shape: arrays of the same length, objects with the same keys
      in the same order, strings where there were strings, and every other
      leaf unchanged. */
  predicate SameShape(a: Json, b: Json)
    decreases a
  {
    match a
    case Arr(xs) =>
      b.Arr? && |b.items| == |xs| && forall i :: 0 <= i < |xs| ==> SameShape(xs[i], b.items[i])
    case Obj(ms) =>
      b.Obj? && |b.members| == |ms|
      && forall i :: 0 <= i < |ms| ==>
        b.members[i].key == ms[i].key && SameShape(ms[i].value, b.members[i].value)
    case Str(_) => b.Str?
    case _ => b == a
  }

  /** The walk changes strings only: the output has the input's shape. */
  lemma {:induction false} ShapeKept(v: Json)
    ensures SameShape(v, SanitizedValue(v))
    decreases v, 0
  {
    match v {
      case Arr(items) =>
        forall i | 0 <= i < |items|
          ensures SameShape(items[i], SanitizedValue(v).items[i])
        {
          EntryShapeKept(NatToString(i), items[i]);
        }
      case Obj(members) =>
        forall i | 0 <= i < |members|
          ensures SameShape(members[i].value, SanitizedValue(v).members[i].value)
        {
          EntryShapeKept(members[i].key, members[i].value);
        }
      case _ =>
    }
  }

  lemma {:induction false} EntryShapeKept(key: string, value: Json)
    ensures SameShape(value, SanitizedEntry(key, value))
    decreases value, 1
  {
    match value {
      case Arr(items) =>
        forall i | 0 <= i < |items|
          ensures SameShape(items[i], SanitizedEntry(key, value).items[i])
        {
          ShapeKept(items[i]);
        }
      case Obj(_) =>
        ShapeKept(value);
      case _ =>
    }
  }

  /** No string stored directly under a sensitive key of an object survives:
      each one becomes the marker. */
  lemma SensitiveStringsRedacted(members: seq<Member>, i: nat)
    requires i < |members| && members[i].value.Str? && SensitiveKey(members[i].key)
    ensures SanitizedValue(Obj(members)).members[i] == Member(members[i].key, Str(Redacted))
  {
  }

  /** A sensitive key does not protect what is not a string: an object stored
      under `password` is walked, not replaced, and a number stays visible. */
  lemma SensitiveKeyKeepsStructure(key: string, inner: seq<Member>, n: int)
    requires SensitiveKey(key)
    ensures SanitizedValue(Obj([Member(key, Obj(inner))])).members[0].value == SanitizedValue(Obj(inner))
    ensures SanitizedValue(Obj([Member(key, Number(Finite(n)))])).members[0].value == Number(Finite(n))
  {
  }

  /** The strings of a top-level array are sanitized, never replaced by the
      marker: their keys are indices. */
  lemma {:induction false} TopLevelStringsSanitized(items: seq<Json>, i: nat)
    requires i < |items| && items[i].Str?
    ensures SanitizedValue(Arr(items)).items[i] == Str(SanitizeText(items[i]))
  {
    IndexKeysNotSensitive(i);
  }

  /** Strings held directly in an array under an object key are not
      sanitized: the array is mapped through `sanitizeObjectValues`, which
      returns a string as it is. */
  lemma NestedArrayStringsUntouched(key: string, items: seq<Json>, i: nat)
    requires i < |items| && items[i].Str?
    ensures var out := SanitizedValue(Obj([Member(key, Arr(items))])).members[0].value;
      out.Arr? && |out.items| == |items| && out.items[i] == items[i]
  {
  }

  /** Appending a member to an object appends its sanitized counterpart. */
  lemma SanitizedAppend(members: seq<Member>, m: Member)
    ensures SanitizedValue(Obj(members + [m])).members
      == SanitizedValue(Obj(members)).members + [Member(m.key, SanitizedEntry(m.key, m.value))]
  {
    var all := members + [m];
    assert forall i :: 0 <= i < |members| ==> all[i] == members[i];
  }
}
