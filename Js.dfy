/**
 * JavaScript values as the services see them: the untyped JSON-like trees the
 * report builder, the workflow script and the HTTP layer receive, together with
 * the language rules the sources lean on — truthiness, `||`, `??`, optional
 * property access, `String(x)`, `Number(x)` and `trim`/`split`/`join`.
 */
module Js {

  /** A JavaScript number. The model keeps the integers and the three
      non-finite values; fractional numbers are not part of this model. */
  datatype Num = Finite(n: int) | NaN | PosInfinity | NegInfinity

  /** An untyped JavaScript value: JSON plus `undefined`. Objects keep their
      members in enumeration order. */
  datatype Json =
    | Undefined
    | Null
    | Bool(b: bool)
    | Number(num: Num)
    | Str(s: string)
    | Arr(items: seq<Json>)
    | Obj(members: seq<Member>)

  datatype Member = Member(key: string, value: Json)

  datatype Option<T> = None | Some(value: T) {
    function GetOr(default: T): T {
      match this
      case Some(v) => v
      case None => default
    }
  }

  /** A call that either returns a value or throws a TypeError (property access
      on null or undefined, iterating a value that is not iterable). */
  datatype Outcome<T> = Returns(value: T) | ThrowsTypeError

  // ---------------------------------------------------------------------------
  // Truthiness and the operators built on it

  /** JavaScript's ToBoolean: '', 0, NaN, null, undefined and false are falsy. */
  predicate NumTruthy(n: Num) {
    match n
    case Finite(i) => i != 0
    case NaN => false
    case _ => true
  }

  predicate Truthy(v: Json) {
    match v
    case Undefined => false
    case Null => false
    case Bool(b) => b
    case Number(n) => NumTruthy(n)
    case Str(s) => |s| > 0
    case Arr(_) => true
    case Obj(_) => true
  }

  predicate Nullish(v: Json) {
    v.Undefined? || v.Null?
  }

  /** `a || b` */
  function Or(a: Json, b: Json): (r: Json)
    ensures Truthy(a) ==> r == a
    ensures !Truthy(a) ==> r == b
  {
    if Truthy(a) then a else b
  }

  /** `a ?? b` */
  function Coalesce(a: Json, b: Json): (r: Json)
    ensures !Nullish(a) ==> r == a
    ensures Nullish(a) ==> r == b
  {
    if Nullish(a) then b else a
  }

  /** `v?.[key]` for an own data property: objects look the key up (the first
      member with that key), every other value yields undefined. */
  function Get(v: Json, key: string): (r: Json)
    ensures !v.Obj? ==> r == Undefined
  {
    match v
    case Obj(members) => Lookup(members, key)
    case _ => Undefined
  }

  function Lookup(members: seq<Member>, key: string): (r: Json)
    ensures r != Undefined ==> exists i :: 0 <= i < |members| && members[i] == Member(key, r)
    ensures (forall i :: 0 <= i < |members| ==> members[i].key != key) ==> r == Undefined
  {
    if |members| == 0 then Undefined
    else if members[0].key == key then members[0].value
    else Lookup(members[1..], key)
  }

  /** `v?.a?.b?.c`: optional chaining along a path of keys. */
  function GetPath(v: Json, path: seq<string>): Json
    decreases |path|
  {
    if |path| == 0 then v else GetPath(Get(v, path[0]), path[1..])
  }

  /** `v?.length` is truthy: a non-empty array or string, or an object with a
      truthy `length` member. */
  predicate HasLength(v: Json) {
    match v
    case Arr(items) => |items| > 0
    case Str(s) => |s| > 0
    case Obj(_) => Truthy(Get(v, "length"))
    case _ => false
  }

  /** What `for (const x of v)` visits: the elements of an array or the
      characters of a string; anything else is not iterable. */
  function Iterate(v: Json): (r: Option<seq<Json>>)
    ensures v.Arr? ==> r == Some(v.items)
    ensures v.Str? ==> r.Some? && |r.value| == |v.s|
    ensures !v.Arr? && !v.Str? ==> r == None
  {
    match v
    case Arr(items) => Some(items)
    case Str(s) => Some(Chars(s))
    case _ => None
  }

  function Chars(s: string): (r: seq<Json>)
    ensures |r| == |s|
    ensures forall i :: 0 <= i < |s| ==> r[i] == Str([s[i]])
  {
    if |s| == 0 then [] else [Str([s[0]])] + Chars(s[1..])
  }

  /** `xs.slice(-n)` for n > 0: the last n elements, or all of them. */
  function LastN<T>(xs: seq<T>, n: nat): (r: seq<T>)
    ensures |r| == if |xs| < n then |xs| else n
    ensures forall i :: 0 <= i < |r| ==> r[i] == xs[|xs| - |r| + i]
  {
    if |xs| <= n then xs else xs[|xs| - n..]
  }

  // ---------------------------------------------------------------------------
  // String(x)

  function DigitChar(d: nat): char
    requires d < 10
  {
    "0123456789"[d]
  }

  function NatToString(n: nat): (r: string)
    ensures |r| > 0
    ensures forall i :: 0 <= i < |r| ==> '0' <= r[i] <= '9'
    decreases n
  {
    if n < 10 then [DigitChar(n)] else NatToString(n / 10) + [DigitChar(n % 10)]
  }

  function IntToString(i: int): (r: string)
    ensures |r| > 0
  {
    if i < 0 then "-" + NatToString(-i) else NatToString(i)
  }

  /** `String(n)` for a number. */
  function NumToString(n: Num): (r: string)
    ensures |r| > 0
  {
    match n
    case Finite(i) => IntToString(i)
    case NaN => "NaN"
    case PosInfinity => "Infinity"
    case NegInfinity => "-Infinity"
  }

  /** `String(v)`: arrays join their elements with commas (null and undefined
      elements become empty), plain objects print as `[object Object]`. */
  function ToStr(v: Json): string {
    match v
    case Undefined => "undefined"
    case Null => "null"
    case Bool(b) => if b then "true" else "false"
    case Number(n) => NumToString(n)
    case Str(s) => s
    case Arr(items) => JoinItems(items)
    case Obj(_) => "[object Object]"
  }

  function JoinItems(items: seq<Json>): string {
    if |items| == 0 then ""
    else
      var head := if Nullish(items[0]) then "" else ToStr(items[0]);
      if |items| == 1 then head else head + "," + JoinItems(items[1..])
  }

  // ---------------------------------------------------------------------------
  // Number(x)

  predicate IsDigit(c: char) {
    '0' <= c <= '9'
  }

  predicate AllDigits(s: string) {
    forall i :: 0 <= i < |s| ==> IsDigit(s[i])
  }

  function DigitsValue(s: string): nat
    requires AllDigits(s)
  {
    if |s| == 0 then 0 else 10 * DigitsValue(s[..|s| - 1]) + (s[|s| - 1] - '0') as nat
  }

  /** `Number(s)` for a string: surrounding white space is ignored, the empty
      string is 0, an optionally signed run of decimal digits is its value and
      `Infinity` keeps its sign. Every other string is NaN in this model (the
      source also accepts fractions, exponents and 0x/0o/0b literals). */
  function ParseNumber(s: string): Num {
    var t := Trim(s);
    if |t| == 0 then Finite(0)
    else if t == "Infinity" || t == "+Infinity" then PosInfinity
    else if t == "-Infinity" then NegInfinity
    else if t[0] == '-' && |t| > 1 && AllDigits(t[1..]) then Finite(0 - DigitsValue(t[1..]))
    else if t[0] == '+' && |t| > 1 && AllDigits(t[1..]) then Finite(DigitsValue(t[1..]))
    else if AllDigits(t) then Finite(DigitsValue(t))
    else NaN
  }

  /** `Number(v)`: objects and arrays convert through their string form. */
  function ToNumber(v: Json): Num {
    match v
    case Undefined => NaN
    case Null => Finite(0)
    case Bool(b) => Finite(if b then 1 else 0)
    case Number(n) => n
    case Str(s) => ParseNumber(s)
    case _ => ParseNumber(ToStr(v))
  }

  // ---------------------------------------------------------------------------
  // Strings

  /** The characters `\s` and `trim` treat as white space. */
  predicate IsSpace(c: char) {
    c == ' ' || c == '\t' || c == '\n' || c == '\r' || c == '\U{000B}' || c == '\U{000C}'
    || c == '\U{00A0}' || c == '\U{1680}' || ('\U{2000}' <= c <= '\U{200A}')
    || c == '\U{2028}' || c == '\U{2029}' || c == '\U{202F}' || c == '\U{205F}'
    || c == '\U{3000}' || c == '\U{FEFF}'
  }

  function TrimStart(s: string): (r: string)
    ensures |r| <= |s| && r == s[|s| - |r|..]
    ensures |r| > 0 ==> !IsSpace(r[0])
    ensures (exists i :: 0 <= i < |s| && !IsSpace(s[i])) ==> |r| > 0
  {
    if |s| > 0 && IsSpace(s[0]) then TrimStart(s[1..]) else s
  }

  function TrimEnd(s: string): (r: string)
    ensures |r| <= |s| && r == s[..|r|]
    ensures |r| > 0 ==> !IsSpace(r[|r| - 1])
    ensures (exists i :: 0 <= i < |s| && !IsSpace(s[i])) ==> |r| > 0
  {
    if |s| > 0 && IsSpace(s[|s| - 1]) then TrimEnd(s[..|s| - 1]) else s
  }

  /** `s.trim()` */
  function Trim(s: string): string {
    TrimEnd(TrimStart(s))
  }

  /** `s.startsWith(prefix)` */
  predicate StartsWith(s: string, prefix: string) {
    |prefix| <= |s| && s[..|prefix|] == prefix
  }

  /** `s.endsWith(suffix)` */
  predicate EndsWith(s: string, suffix: string) {
    |suffix| <= |s| && s[|s| - |suffix|..] == suffix
  }

  /** ASCII `toLowerCase` / `toUpperCase`. */
  function LowerChar(c: char): char {
    if 'A' <= c <= 'Z' then (c as int + 32) as char else c
  }

  function UpperChar(c: char): char {
    if 'a' <= c <= 'z' then (c as int - 32) as char else c
  }

  function Lower(s: string): (r: string)
    ensures |r| == |s|
    ensures forall i :: 0 <= i < |s| ==> r[i] == LowerChar(s[i])
  {
    if |s| == 0 then [] else [LowerChar(s[0])] + Lower(s[1..])
  }

  function Upper(s: string): (r: string)
    ensures |r| == |s|
    ensures forall i :: 0 <= i < |s| ==> r[i] == UpperChar(s[i])
  {
    if |s| == 0 then [] else [UpperChar(s[0])] + Upper(s[1..])
  }

  /** `s.split(sep)` for a single-character separator. */
  function Split(s: string, sep: char): (r: seq<string>)
    ensures |r| > 0
    ensures forall i :: 0 <= i < |r| ==> sep !in r[i]
  {
    if |s| == 0 then [""]
    else
      var rest := Split(s[1..], sep);
      if s[0] == sep then [""] + rest else [[s[0]] + rest[0]] + rest[1..]
  }

  /** `parts.join(sep)` */
  function Join(parts: seq<string>, sep: string): string {
    if |parts| == 0 then ""
    else if |parts| == 1 then parts[0]
    else parts[0] + sep + Join(parts[1..], sep)
  }

  /** Concatenation of a sequence of strings. */
  function Concat(parts: seq<string>): string {
    if |parts| == 0 then "" else Concat(parts[..|parts| - 1]) + parts[|parts| - 1]
  }

  /** Concatenation regrouped; stated once so that proofs about lists and
      texts built piece by piece need not rediscover it. */
  lemma Associate<T>(a: seq<T>, b: seq<T>, c: seq<T>)
    ensures (a + b) + c == a + (b + c)
  {
  }

  /** Joining with one more part at the end adds the separator and that part. */
  lemma {:induction false} JoinSnoc(parts: seq<string>, x: string, sep: string)
    requires |parts| > 0
    ensures Join(parts + [x], sep) == Join(parts, sep) + sep + x
    decreases |parts|
  {
    if |parts| > 1 {
      JoinSnoc(parts[1..], x, sep);
      assert (parts + [x])[1..] == parts[1..] + [x];
    } else {
      assert (parts + [x])[1..] == [x];
    }
  }

  /** The first part begins the joined text. */
  lemma {:induction false} JoinStartsWithFirst(parts: seq<string>, sep: string)
    requires |parts| > 0
    ensures StartsWith(Join(parts, sep), parts[0])
  {
    if |parts| > 1 {
      assert Join(parts, sep) == parts[0] + (sep + Join(parts[1..], sep));
    }
  }

  /** Trimming the end of a text whose last part starts with a non-space
      character only trims that part. */
  lemma {:induction false} TrimEndAfter(a: string, b: string)
    requires |b| > 0 && !IsSpace(b[0])
    ensures TrimEnd(a + b) == a + TrimEnd(b)
    decreases |b|
  {
    var s := a + b;
    if IsSpace(b[|b| - 1]) {
      assert |b| > 1;
      assert s[..|s| - 1] == a + b[..|b| - 1];
      TrimEndAfter(a, b[..|b| - 1]);
    }
  }

  /** Splitting at a separator placed between two strings splits each side. */
  lemma {:induction false} SplitAppend(a: string, b: string, sep: char)
    ensures Split(a + [sep] + b, sep) == Split(a, sep) + Split(b, sep)
    decreases |a|
  {
    if |a| == 0 {
      assert a + [sep] + b == [sep] + b;
      assert ([sep] + b)[1..] == b;
    } else {
      var s := a + [sep] + b;
      assert s[0] == a[0];
      assert s[1..] == a[1..] + [sep] + b;
      SplitAppend(a[1..], b, sep);
    }
  }

  /** A string without the separator is a single part. */
  lemma {:induction false} SplitWithoutSeparator(a: string, sep: char)
    requires sep !in a
    ensures Split(a, sep) == [a]
    decreases |a|
  {
    if |a| > 0 {
      SplitWithoutSeparator(a[1..], sep);
      assert [a[0]] + a[1..] == a;
    }
  }

  /** Joining parts free of the separator and splitting again gives the parts
      back. */
  lemma {:induction false} SplitJoin(parts: seq<string>, sep: char)
    requires |parts| > 0
    requires forall i :: 0 <= i < |parts| ==> sep !in parts[i]
    ensures Split(Join(parts, [sep]), sep) == parts
    decreases |parts|
  {
    SplitWithoutSeparator(parts[0], sep);
    if |parts| > 1 {
      SplitJoin(parts[1..], sep);
      SplitAppend(parts[0], Join(parts[1..], [sep]), sep);
      assert parts == [parts[0]] + parts[1..];
    }
  }
}
