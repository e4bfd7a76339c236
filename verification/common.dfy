/** Shared vocabulary: optional values, the dynamically-typed values that arrive in
    request bodies and stored documents, and the handful of string operations the
    relay uses (digit stripping, substring search, trimming, lower-casing, splitting,
    joining and decimal rendering). */
module Common {

  datatype Option<T> = None | Some(value: T)

  /** A value as the runtime sees it after JSON decoding; `Undef` is a missing
      property. Numbers are integers: floating point is not modelled. */
  datatype Value =
    | Undef
    | Null
    | Bool(b: bool)
    | Num(n: int)
    | Str(s: string)
    | Arr(items: seq<Value>)
    | Obj(fields: map<string, Value>)

  /** The truthiness test behind `if (v)`, `!v` and `a || b`. */
  predicate Truthy(v: Value) {
    match v
    case Undef => false
    case Null => false
    case Bool(b) => b
    case Num(n) => n != 0
    case Str(s) => s != ""
    case Arr(_) => true
    case Obj(_) => true
  }

  /** The test behind `??`: only null and undefined fall through. */
  predicate Nullish(v: Value) {
    v.Undef? || v.Null?
  }

  /** Property access `v[k]`; `None` stands for the TypeError raised when `v` is
      null or undefined. */
  function Prop(v: Value, k: string): (r: Option<Value>)
    ensures r.None? <==> Nullish(v)
  {
    match v
    case Undef => None
    case Null => None
    case Obj(m) => Some(if k in m then m[k] else Undef)
    case Arr(xs) => Some(if k == "0" && |xs| > 0 then xs[0] else Undef)
    case Str(s) => Some(if k == "0" && |s| > 0 then Str([s[0]]) else Undef)
    case _ => Some(Undef)
  }

  /** One entry of a chat history, `{ role, content }`. */
  datatype Role = System | User | Assistant
  datatype Turn = Turn(role: Role, content: string)

  /** The turns kept under `key`; none for a key never seen. */
  function TurnsOf(m: map<string, seq<Turn>>, key: string): (h: seq<Turn>)
    ensures key !in m ==> h == []
  {
    if key in m then m[key] else []
  }

  /** The names every plain object inherits from `Object.prototype`: reading one
      of them from an object used as a dictionary finds a function (or, for
      `__proto__`, the prototype itself), which is truthy, although nothing was
      ever stored under it. */
  const InheritedKeys: set<string> := {
    "constructor", "__proto__", "toString", "toLocaleString", "valueOf",
    "hasOwnProperty", "isPrototypeOf", "propertyIsEnumerable",
    "__defineGetter__", "__defineSetter__", "__lookupGetter__", "__lookupSetter__"
  }

  // ---------------------------------------------------------------------------
  // Characters

  predicate IsDigit(c: char) {
    '0' <= c <= '9'
  }

  /** The characters matched by `\s` in a regular expression and removed by
      `String.prototype.trim`. */
  predicate IsSpace(c: char) {
    || c == ' ' || c == '\t' || c == '\n' || c == '\U{000B}' || c == '\U{000C}' || c == '\r'
    || c == '\U{00A0}' || c == '\U{1680}' || ('\U{2000}' <= c <= '\U{200A}')
    || c == '\U{2028}' || c == '\U{2029}' || c == '\U{202F}' || c == '\U{205F}'
    || c == '\U{3000}' || c == '\U{FEFF}'
  }

  predicate IsUpper(c: char) {
    ('A' <= c <= 'Z') || ('\U{00C0}' <= c <= '\U{00DE}' && c != '\U{00D7}')
  }

  /** Lower-casing of one character, for Basic Latin and Latin-1 letters. */
  function LowerChar(c: char): (r: char)
    ensures IsUpper(c) ==> r as int == c as int + 32
    ensures !IsUpper(c) ==> r == c
    ensures !IsUpper(r)
  {
    if IsUpper(c) then (c as int + 32) as char else c
  }

  // ---------------------------------------------------------------------------
  // Whole-string predicates

  predicate AllDigits(s: string) {
    forall i :: 0 <= i < |s| ==> IsDigit(s[i])
  }

  predicate AllSpace(s: string) {
    forall i :: 0 <= i < |s| ==> IsSpace(s[i])
  }

  function ToLower(s: string): (r: string)
    ensures |r| == |s|
    ensures forall i :: 0 <= i < |s| ==> r[i] == LowerChar(s[i])
  {
    seq(|s|, i requires 0 <= i < |s| => LowerChar(s[i]))
  }

  /** `s.replace(/[^\d]/g, '')`: the digits of `s`, in order. */
  function Digits(s: string): (r: string)
    ensures AllDigits(r)
    ensures |r| <= |s|
    ensures AllDigits(s) ==> r == s
  {
    if |s| == 0 then ""
    else if IsDigit(s[0]) then [s[0]] + Digits(s[1..])
    else Digits(s[1..])
  }

  /** `hay.includes(needle)`. */
  predicate Includes(hay: string, needle: string)
    decreases |hay|
  {
    needle <= hay || (|hay| > 0 && Includes(hay[1..], needle))
  }

  lemma {:induction false} IncludesAt(hay: string, needle: string, i: nat)
    requires i <= |hay| && needle <= hay[i..]
    ensures Includes(hay, needle)
    decreases i
  {
    if i > 0 {
      assert hay[1..][i - 1..] == hay[i..];
      IncludesAt(hay[1..], needle, i - 1);
    }
  }

  lemma {:induction false} IncludesWitness(hay: string, needle: string) returns (i: nat)
    requires Includes(hay, needle)
    ensures i <= |hay| && needle <= hay[i..]
    decreases |hay|
  {
    if needle <= hay {
      i := 0;
    } else {
      var j := IncludesWitness(hay[1..], needle);
      assert hay[1..][j..] == hay[j + 1..];
      i := j + 1;
    }
  }

  /** `s.endsWith(suffix)`. */
  predicate EndsWith(s: string, suffix: string) {
    |suffix| <= |s| && s[|s| - |suffix|..] == suffix
  }

  /** A string contains itself and the empty string. */
  lemma IncludesReflexive(s: string)
    ensures Includes(s, s)
    ensures Includes(s, "")
  {
  }

  lemma IncludesInfix(a: string, needle: string, b: string)
    ensures Includes(a + needle + b, needle)
  {
    var hay := a + needle + b;
    assert hay[|a|..][..|needle|] == needle;
    IncludesAt(hay, needle, |a|);
  }

  // ---------------------------------------------------------------------------
  // Trimming

  /** The number of white-space characters at the start of `s`. */
  function LeadingSpaces(s: string): (k: nat)
    ensures k <= |s|
    ensures forall i :: 0 <= i < k ==> IsSpace(s[i])
    ensures k < |s| ==> !IsSpace(s[k])
  {
    if |s| > 0 && IsSpace(s[0]) then
      var k := 1 + LeadingSpaces(s[1..]);
      assert forall i :: 1 <= i < k ==> s[i] == s[1..][i - 1];
      k
    else 0
  }

  /** The index where the white space at the end of `s` begins. */
  function TrailingStart(s: string): (k: nat)
    ensures k <= |s|
    ensures forall i :: k <= i < |s| ==> IsSpace(s[i])
    ensures k > 0 ==> !IsSpace(s[k - 1])
  {
    if |s| > 0 && IsSpace(s[|s| - 1]) then
      var k := TrailingStart(s[..|s| - 1]);
      assert forall i :: 0 <= i < |s| - 1 ==> s[i] == s[..|s| - 1][i];
      k
    else |s|
  }

  /** `s.trim()`: the contiguous middle of `s` left after removing leading and
      trailing white space. */
  function Trim(s: string): (r: string)
    ensures exists i :: 0 <= i <= |s| - |r| && r <= s[i..]
    ensures r == [] || (!IsSpace(r[0]) && !IsSpace(r[|r| - 1]))
  {
    var k := LeadingSpaces(s);
    var a := s[k..];
    var r := a[..TrailingStart(a)];
    assert r <= s[k..];
    r
  }

  lemma InfixIncluded(hay: string, needle: string, i: nat)
    requires i + |needle| <= |hay| && hay[i..i + |needle|] == needle
    ensures Includes(hay, needle)
  {
    assert needle <= hay[i..];
    IncludesAt(hay, needle, i);
  }

  lemma InfixOfSuffix(s: string, needle: string, i: nat, k: nat)
    requires k <= i && i + |needle| <= |s| && s[i..i + |needle|] == needle
    ensures s[k..][i - k..i - k + |needle|] == needle
  {
  }

  lemma InfixOfPrefix(s: string, needle: string, i: nat, e: nat)
    requires i + |needle| <= e <= |s| && s[i..i + |needle|] == needle
    ensures s[..e][i..i + |needle|] == needle
  {
  }

  lemma LeadingSpacesBefore(s: string, i: nat)
    requires i < |s| && !IsSpace(s[i])
    ensures LeadingSpaces(s) <= i
  {
  }

  lemma TrailingStartAfter(s: string, j: nat)
    requires j < |s| && !IsSpace(s[j])
    ensures j < TrailingStart(s)
  {
  }

  lemma TrimIsMiddle(s: string)
    ensures var a := s[LeadingSpaces(s)..]; Trim(s) == a[..TrailingStart(a)]
  {
  }

  /** Where an infix without white space at its ends sits after trimming. */
  lemma TrimWindow(s: string, needle: string, i: nat) returns (j: nat)
    requires i + |needle| <= |s| && s[i..i + |needle|] == needle && |needle| > 0
    requires !IsSpace(needle[0]) && !IsSpace(needle[|needle| - 1])
    ensures var a := s[LeadingSpaces(s)..];
      j + |needle| <= TrailingStart(a) && a[..TrailingStart(a)][j..j + |needle|] == needle
  {
    var n := |needle|;
    assert s[i] == needle[0];
    LeadingSpacesBefore(s, i);
    var k := LeadingSpaces(s);
    var a := s[k..];
    InfixOfSuffix(s, needle, i, k);
    assert a[i - k + n - 1] == needle[n - 1];
    TrailingStartAfter(a, i - k + n - 1);
    InfixOfPrefix(a, needle, i - k, TrailingStart(a));
    j := i - k;
  }

  /** Trimming keeps every infix that neither starts nor ends with white space. */
  lemma TrimKeepsInfix(s: string, needle: string)
    requires Includes(s, needle) && |needle| > 0
    requires !IsSpace(needle[0]) && !IsSpace(needle[|needle| - 1])
    ensures Includes(Trim(s), needle)
  {
    var i := IncludesWitness(s, needle);
    assert s[i..i + |needle|] == needle;
    var j := TrimWindow(s, needle, i);
    TrimIsMiddle(s);
    InfixIncluded(Trim(s), needle, j);
  }

  // ---------------------------------------------------------------------------
  // Splitting and joining

  function Occurrences(s: string, c: char): nat {
    if |s| == 0 then 0 else (if s[0] == c then 1 else 0) + Occurrences(s[1..], c)
  }

  lemma {:induction false} OccurrencesAppend(a: string, b: string, c: char)
    ensures Occurrences(a + b, c) == Occurrences(a, c) + Occurrences(b, c)
  {
    if |a| > 0 {
      assert (a + b)[1..] == a[1..] + b;
      OccurrencesAppend(a[1..], b, c);
    } else {
      assert a + b == b;
    }
  }

  /** `parts.join(sep)`. */
  function Join(parts: seq<string>, sep: string): string {
    if |parts| == 0 then ""
    else if |parts| == 1 then parts[0]
    else parts[0] + sep + Join(parts[1..], sep)
  }

  /** `s.split(sep)` for a one-character separator: pieces free of the separator
      that join back into `s`, one more piece than there are separators. */
  function Split(s: string, sep: char): (parts: seq<string>)
    ensures |parts| == Occurrences(s, sep) + 1
    ensures forall i :: 0 <= i < |parts| ==> Occurrences(parts[i], sep) == 0
    ensures Join(parts, [sep]) == s
  {
    if |s| == 0 then [""]
    else if s[0] == sep then
      var rest := Split(s[1..], sep);
      assert [s[0]] + s[1..] == s;
      [""] + rest
    else
      var rest := Split(s[1..], sep);
      var head := [s[0]] + rest[0];
      assert Occurrences(head, sep) == 0 by {
        assert head[1..] == rest[0];
      }
      var parts := [head] + rest[1..];
      assert Join(parts, [sep]) == s by {
        if |rest| == 1 {
          assert parts == [head];
          assert [s[0]] + s[1..] == s;
        } else {
          assert parts[1..] == rest[1..];
          assert Join(rest, [sep]) == rest[0] + [sep] + Join(rest[1..], [sep]);
          assert [s[0]] + s[1..] == s;
        }
      }
      parts
  }

  // ---------------------------------------------------------------------------
  // Decimal numerals

  function DigitValue(c: char): nat
    requires IsDigit(c)
  {
    c as int - '0' as int
  }

  function DigitChar(d: nat): (c: char)
    requires d < 10
    ensures IsDigit(c) && DigitValue(c) == d
  {
    ('0' as int + d) as char
  }

  /** `parseInt` of a string made only of decimal digits. */
  function DecimalValue(ds: string): nat
    requires AllDigits(ds)
  {
    if |ds| == 0 then 0 else 10 * DecimalValue(ds[..|ds| - 1]) + DigitValue(ds[|ds| - 1])
  }

  /** `String(n)` for a natural number: a digit string that parses back to `n`. */
  function NatToString(n: nat): (s: string)
    ensures |s| >= 1 && AllDigits(s)
    ensures DecimalValue(s) == n
    ensures |s| > 1 ==> s[0] != '0'
  {
    if n < 10 then [DigitChar(n)]
    else
      var s := NatToString(n / 10) + [DigitChar(n % 10)];
      assert s[..|s| - 1] == NatToString(n / 10);
      s
  }

  // ---------------------------------------------------------------------------
  // String conversion

  /** `String(n)` for an integer. */
  function IntToString(n: int): (s: string)
    ensures n >= 0 ==> s == NatToString(n)
    ensures n < 0 ==> s == "-" + NatToString(-n)
  {
    if n >= 0 then NatToString(n) else "-" + NatToString(-n)
  }

  /** `String(v)`, which is also the key a value becomes when used as a property
      name. Arrays join their elements with commas, writing null and undefined
      elements as empty; every plain object reads "[object Object]". */
  function JsString(v: Value): (s: string)
    decreases v, 1
  {
    match v
    case Undef => "undefined"
    case Null => "null"
    case Bool(b) => if b then "true" else "false"
    case Num(n) => IntToString(n)
    case Str(t) => t
    case Arr(items) => JoinElements(v, items)
    case Obj(_) => "[object Object]"
  }

  function JoinElements(whole: Value, items: seq<Value>): string
    requires whole.Arr? && forall x :: x in items ==> x < whole
    decreases whole, 0, |items|
  {
    if |items| == 0 then ""
    else
      assert items[0] in items;
      var head := if Nullish(items[0]) then "" else JsString(items[0]);
      if |items| == 1 then head
      else
        assert forall x :: x in items[1..] ==> x in items;
        head + "," + JoinElements(whole, items[1..])
  }

  /** A string is its own string form, and the primitive forms are fixed. */
  lemma JsStringPrimitives(t: string, n: nat)
    ensures JsString(Str(t)) == t
    ensures JsString(Null) == "null" && JsString(Undef) == "undefined"
    ensures JsString(Num(n)) == NatToString(n) && AllDigits(JsString(Num(n)))
  {
  }
}
