/**
 * The pieces of JavaScript semantics that the dashboard code relies on:
 * optional values, truthiness of strings, the numeric value of a Date
 * (NaN for unparseable input) and the ASCII subset of the string
 * functions `toLowerCase`, `trim`, `includes` and `split(c)[0]`.
 */
module Js {

  datatype Option<T> = None | Some(value: T)

  /** `s` used in a condition: undefined, null and "" are falsy. */
  predicate Truthy(s: Option<string>) {
    s.Some? && s.value != ""
  }

  /**
   * The names of the members every plain object `{}` inherits from
   * `Object.prototype`. Indexing a plain object by one of them reads a
   * truthy inherited value (a function, or the prototype itself for
   * `__proto__`) rather than `undefined`.
   */
  const ObjectPrototypeMembers: set<string> := {
    "constructor", "__proto__", "toString", "toLocaleString", "valueOf",
    "hasOwnProperty", "isPrototypeOf", "propertyIsEnumerable",
    "__defineGetter__", "__defineSetter__", "__lookupGetter__", "__lookupSetter__"
  }

  /** `s || fallback` for an optional string. */
  function OrElse(s: Option<string>, fallback: string): (r: string)
    ensures Truthy(s) ==> r == s.value
    ensures !Truthy(s) ==> r == fallback
  {
    if Truthy(s) then s.value else fallback
  }

  /** `a ?? b`: only undefined and null fall through, "" does not. */
  function Coalesce(a: Option<string>, b: Option<string>): (r: Option<string>)
    ensures a.Some? ==> r == a
    ensures a.None? ==> r == b
  {
    if a.Some? then a else b
  }

  /**
   * A timestamp field as the code sees it once it is turned into a Date:
   * null (`new Date(null)` is the epoch, 0), a valid instant in
   * milliseconds, or a string that does not parse (NaN).
   */
  datatype Time = Absent | Valid(ms: int) | Invalid

  /** A JavaScript number restricted to what timestamps can be: NaN or an integer. */
  datatype Num = NaN | Finite(v: int)

  /** `new Date(t).getTime()`, with null read as the epoch. */
  function DateValue(t: Time): (n: Num)
    ensures n.NaN? <==> t.Invalid?
    ensures t.Absent? ==> n == Finite(0)
    ensures t.Valid? ==> n == Finite(t.ms)
  {
    match t
    case Absent => Finite(0)
    case Valid(ms) => Finite(ms)
    case Invalid => NaN
  }

  /** `a >= b` on numbers: false as soon as either side is NaN. */
  predicate NumGe(a: Num, b: Num) {
    a.Finite? && b.Finite? && a.v >= b.v
  }

  /** `a > b` on numbers: false as soon as either side is NaN. */
  predicate NumGt(a: Num, b: Num) {
    a.Finite? && b.Finite? && a.v > b.v
  }

  /**
   * `new Date(s)` for a string, given the engine's date parser.
   * The empty string never parses.
   */
  function ParseDate(parse: string -> Option<int>, s: string): (r: Option<int>)
    ensures s == "" ==> r.None?
    ensures s != "" ==> r == parse(s)
  {
    if s == "" then None else parse(s)
  }

  // ---------------------------------------------------------------
  // ASCII text
  // ---------------------------------------------------------------

  /** The ASCII characters matched by `\s` and removed by `trim`. */
  predicate IsSpace(c: char) {
    c == ' ' || c == '\t' || c == '\n' || c == '\r' || c == '\U{B}' || c == '\U{C}'
  }

  function LowerChar(c: char): (r: char)
    ensures 'A' <= c <= 'Z' ==> r as int == c as int + 32
    ensures !('A' <= c <= 'Z') ==> r == c
  {
    if 'A' <= c <= 'Z' then (c as int + 32) as char else c
  }

  /** `s.toLowerCase()` on ASCII letters. */
  function Lower(s: string): (r: string)
    ensures |r| == |s|
    ensures forall i :: 0 <= i < |s| ==> r[i] == LowerChar(s[i])
  {
    seq(|s|, i requires 0 <= i < |s| => LowerChar(s[i]))
  }

  /** `q` occurs in `s` starting at position `i`. */
  predicate OccursAt(s: string, q: string, i: int) {
    0 <= i && i + |q| <= |s| && s[i..i + |q|] == q
  }

  /** `s.includes(q)`. */
  predicate Contains(s: string, q: string) {
    exists i :: 0 <= i <= |s| - |q| && OccursAt(s, q, i)
  }

  function TrimStart(s: string): (r: string)
    ensures |r| <= |s| && r == s[|s| - |r|..]
    ensures |r| > 0 ==> !IsSpace(r[0])
    ensures forall i :: 0 <= i < |s| - |r| ==> IsSpace(s[i])
  {
    if |s| > 0 && IsSpace(s[0]) then TrimStart(s[1..]) else s
  }

  function TrimEnd(s: string): (r: string)
    ensures |r| <= |s| && r == s[..|r|]
    ensures |r| > 0 ==> !IsSpace(r[|r| - 1])
    ensures forall i :: |r| <= i < |s| ==> IsSpace(s[i])
  {
    if |s| > 0 && IsSpace(s[|s| - 1]) then TrimEnd(s[..|s| - 1]) else s
  }

  /** `s.trim()`: the text between the leading and the trailing white space. */
  function Trim(s: string): (r: string)
    ensures |r| <= |s|
    ensures |r| > 0 ==> !IsSpace(r[0]) && !IsSpace(r[|r| - 1])
  {
    TrimEnd(TrimStart(s))
  }

  /** The first character of `s` that is not white space sits at index `a`. */
  lemma {:induction false} TrimStartAt(s: string, a: int)
    requires 0 <= a <= |s|
    requires forall i :: 0 <= i < a ==> IsSpace(s[i])
    requires a < |s| ==> !IsSpace(s[a])
    ensures TrimStart(s) == s[a..]
    decreases a
  {
    if a > 0 {
      TrimStartAt(s[1..], a - 1);
      assert s[1..][a - 1..] == s[a..];
    }
  }

  lemma {:induction false} TrimEndAt(s: string, b: int)
    requires 0 <= b <= |s|
    requires forall i :: b <= i < |s| ==> IsSpace(s[i])
    requires b > 0 ==> !IsSpace(s[b - 1])
    ensures TrimEnd(s) == s[..b]
    decreases |s| - b
  {
    if b < |s| {
      TrimEndAt(s[..|s| - 1], b);
      assert s[..|s| - 1][..b] == s[..b];
    }
  }

  /** Trimming twice is trimming once. */
  lemma TrimIdempotent(s: string)
    ensures Trim(Trim(s)) == Trim(s)
  {
    var t := Trim(s);
    TrimStartAt(t, 0);
    TrimEndAt(t, |t|);
  }

  /** `s.split(c)[0]`: the text before the first `c`, or all of `s`. */
  function BeforeFirst(s: string, c: char): (r: string)
    ensures |r| <= |s| && r == s[..|r|]
    ensures c !in r
    ensures |r| < |s| ==> s[|r|] == c
  {
    if s == [] then []
    else if s[0] == c then []
    else [s[0]] + BeforeFirst(s[1..], c)
  }
}
