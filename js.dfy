/** JavaScript semantics the booking engine relies on: the values that arrive in
    request bodies, URL parameters and query strings, their truthiness, the
    `Number()` and `parseInt()` conversions, `Array.prototype.filter`, and how a
    record is serialised to JSON before it reaches the database.

    Numbers are modelled as integers or NaN; fractional numbers are not modelled. */
module Js {

  datatype Option<+T> = None | Some(value: T)

  datatype Result<+T, +E> = Ok(value: T) | Err(error: E)

  datatype Outcome<+E> = Pass | Fail(error: E)

  /** A JSON-like JavaScript value. An object is its own enumerable entries, in
      JavaScript's enumeration order. */
  datatype Value =
    | Undefined
    | Null
    | Bool(b: bool)
    | Num(n: int)
    | NaN
    | Str(s: string)
    | Obj(entries: seq<Entry>)

  datatype Entry = Entry(key: string, value: Value)

  /** A plain object: property name to value. A property that is absent reads
      as `undefined`. */
  type Record = map<string, Value>

  /** `r[key]` */
  function Get(r: Record, key: string): Value
  {
    if key in r then r[key] else Undefined
  }

  /** The values for which `!v` is true. */
  predicate Falsy(v: Value)
  {
    v == Undefined || v == Null || v == Bool(false) || v == Num(0) || v == NaN || v == Str("")
  }

  predicate IsDigit(c: char)
  {
    '0' <= c <= '9'
  }

  predicate AllDigits(s: string)
  {
    forall i :: 0 <= i < |s| ==> IsDigit(s[i])
  }

  /** The value of a run of decimal digits. */
  function DigitsValue(s: string): nat
    requires AllDigits(s)
  {
    if s == [] then 0 else DigitsValue(s[..|s| - 1]) * 10 + (s[|s| - 1] as int - '0' as int)
  }

  /** An optionally signed run of decimal digits: the integer literals that both
      `Number()` and the database's integer input accept. */
  function DecimalLiteral(s: string): Option<int>
  {
    if |s| > 0 && (s[0] == '-' || s[0] == '+') then
      if |s| > 1 && AllDigits(s[1..]) then
        var n: int := DigitsValue(s[1..]);
        Some(if s[0] == '-' then -n else n)
      else None
    else if |s| > 0 && AllDigits(s) then Some(DigitsValue(s))
    else None
  }

  /** `Number(v)`, with None standing for NaN. */
  function ToNumber(v: Value): Option<int>
  {
    match v
    case Undefined => None
    case Null => Some(0)
    case Bool(b) => Some(if b then 1 else 0)
    case Num(n) => Some(n)
    case NaN => None
    case Str(s) =>
      var t := TrimEnd(SkipSpaces(s));
      if t == "" then Some(0) else DecimalLiteral(t)
    case Obj(_) => None
  }

  /** The longest prefix of `s` made of decimal digits. */
  function LeadingDigits(s: string): (ds: string)
    ensures AllDigits(ds) && ds <= s
    ensures |ds| < |s| ==> !IsDigit(s[|ds|])
  {
    if |s| > 0 && IsDigit(s[0]) then [s[0]] + LeadingDigits(s[1..]) else []
  }

  /** The characters JavaScript trims: white space and line terminators. */
  predicate JsSpace(c: char)
  {
    || c == '\t' || c == '\n' || c == '\U{B}' || c == '\U{C}' || c == '\r' || c == ' '
    || c == '\U{A0}' || c == '\U{1680}' || '\U{2000}' <= c <= '\U{200A}' || c == '\U{2028}' || c == '\U{2029}'
    || c == '\U{202F}' || c == '\U{205F}' || c == '\U{3000}' || c == '\U{FEFF}'
  }

  /** `s` without its leading white space. */
  function SkipSpaces(s: string): (t: string)
    ensures |t| > 0 ==> !JsSpace(t[0])
    ensures |t| <= |s| && t == s[|s| - |t|..]
  {
    if |s| > 0 && JsSpace(s[0]) then SkipSpaces(s[1..]) else s
  }

  /** `s` without its trailing white space. */
  function TrimEnd(s: string): (t: string)
    ensures |t| > 0 ==> !JsSpace(t[|t| - 1])
    ensures t <= s
  {
    if |s| > 0 && JsSpace(s[|s| - 1]) then TrimEnd(s[..|s| - 1]) else s
  }

  /** A non-empty run of digits has no white space to trim and is read as its
      value by both `Number()` and `parseInt`. */
  lemma DigitsRead(s: string)
    requires s != [] && AllDigits(s)
    ensures SkipSpaces(s) == s && TrimEnd(s) == s
    ensures ToNumber(Str(s)) == Some(DigitsValue(s))
    ensures ParseInt(s) == Some(DigitsValue(s))
  {
    assert IsDigit(s[0]) && IsDigit(s[|s| - 1]);
    NothingToTrim(s);
    LeadingDigitsOfDigits(s);
    assert Unsigned(s) == s;
  }

  lemma NothingToTrim(s: string)
    requires s != [] && !JsSpace(s[0]) && !JsSpace(s[|s| - 1])
    ensures SkipSpaces(s) == s && TrimEnd(s) == s
  {
  }

  lemma {:induction false} LeadingDigitsOfDigits(s: string)
    requires AllDigits(s)
    ensures LeadingDigits(s) == s
  {
    if s != [] {
      assert IsDigit(s[0]);
      LeadingDigitsOfDigits(s[1..]);
    }
  }

  /** `parseInt(s, 10)`: leading white space, an optional sign, then the longest
      run of digits; NaN (None) when there is no digit. */
  function ParseInt(s: string): (r: Option<int>)
    ensures r.Some? <==> |LeadingDigits(Unsigned(SkipSpaces(s)))| > 0
  {
    var t := SkipSpaces(s);
    var ds := LeadingDigits(Unsigned(t));
    if ds == [] then None
    else
      var n: int := DigitsValue(ds);
      Some(if |t| > 0 && t[0] == '-' then -n else n)
  }

  function Unsigned(t: string): string
  {
    if |t| > 0 && (t[0] == '-' || t[0] == '+') then t[1..] else t
  }

  /** `parseInt(String(v), 10)`. The string forms of undefined, null, booleans,
      NaN and objects start with no digit, so they all parse to NaN. */
  function ParseIntValue(v: Value): Option<int>
  {
    match v
    case Num(n) => Some(n)
    case Str(s) => ParseInt(s)
    case _ => None
  }

  /** `x < k` where x is a JavaScript number (None is NaN): false for NaN. */
  predicate LessThan(x: Option<int>, k: int)
  {
    x.Some? && x.value < k
  }

  /** `k >= x` where x is a JavaScript number: false for NaN. */
  predicate AtLeast(k: int, x: Option<int>)
  {
    x.Some? && k >= x.value
  }

  /** A JavaScript number as JSON writes it: NaN becomes null. */
  function NumberToJson(x: Option<int>): Value
  {
    if x.Some? then Num(x.value) else Null
  }

  /** How one property value is written by `JSON.stringify`. */
  function JsonValue(v: Value): Value
  {
    if v == NaN then Null else v
  }

  /** `JSON.stringify` of a record as sent to the database: properties whose
      value is undefined disappear and NaN is written as null. */
  function Json(r: Record): (j: Record)
    ensures forall k {:trigger Get(j, k)} :: Get(j, k) == JsonValue(Get(r, k))
    ensures forall k :: k in j <==> k in r && r[k] != Undefined
  {
    map k | k in r && r[k] != Undefined :: JsonValue(r[k])
  }

  /** `{...base, ...top}`: the properties of both, those of `top` winning. */
  function Spread(base: Record, top: Record): (r: Record)
    ensures forall k :: k in r <==> k in base || k in top
    ensures forall k {:trigger Get(r, k)} :: Get(r, k) == if k in top then top[k] else Get(base, k)
  {
    base + top
  }

  /** `s.filter(p)` */
  function Filter<T(!new)>(s: seq<T>, p: T -> bool): (r: seq<T>)
    ensures |r| <= |s|
    ensures forall x :: x in r <==> x in s && p(x)
  {
    if s == [] then [] else (if p(s[0]) then [s[0]] else []) + Filter(s[1..], p)
  }

  /** Filtering out every element leaves nothing. */
  lemma {:induction false} FilterNone<T(!new)>(s: seq<T>, p: T -> bool)
    requires forall x :: x in s ==> !p(x)
    ensures Filter(s, p) == []
  {
    if s != [] {
      FilterNone(s[1..], p);
    }
  }

  /** Filtering with two tests that agree on every element gives the same result. */
  lemma {:induction false} FilterCongruent<T(!new)>(s: seq<T>, p: T -> bool, q: T -> bool)
    requires forall x :: x in s ==> p(x) == q(x)
    ensures Filter(s, p) == Filter(s, q)
  {
    if s != [] {
      FilterCongruent(s[1..], p, q);
    }
  }

  /** The first failure among `os[i..]`, in order, or Pass when there is none:
      a sequence of steps that stops at the first one that throws. */
  function FirstFailure<E>(os: seq<Outcome<E>>, i: nat): (o: Outcome<E>)
    ensures o.Pass? <==> forall j :: i <= j < |os| ==> os[j].Pass?
    ensures o.Fail? ==> exists j :: i <= j < |os| && os[j] == o && forall k :: i <= k < j ==> os[k].Pass?
    decreases |os| - i
  {
    if i >= |os| then Pass
    else if os[i].Fail? then os[i]
    else FirstFailure(os, i + 1)
  }

  /** Every pair of elements at distinct positions satisfies `ok`. */
  ghost predicate Pairwise<T>(s: seq<T>, ok: (T, T) -> bool)
  {
    forall i, j :: 0 <= i < j < |s| ==> ok(s[i], s[j])
  }

  lemma {:induction false} PairwiseCons<T>(x: T, s: seq<T>, ok: (T, T) -> bool)
    requires Pairwise(s, ok)
    requires forall y :: y in s ==> ok(x, y)
    ensures Pairwise([x] + s, ok)
  {
    var t := [x] + s;
    forall i, j | 0 <= i < j < |t| ensures ok(t[i], t[j]) {
      if i == 0 {
        assert t[j] == s[j - 1];
        assert s[j - 1] in s;
      } else {
        assert t[i] == s[i - 1] && t[j] == s[j - 1];
      }
    }
  }

  /** Two lists each pairwise fine, and fine across, are fine together. */
  lemma PairwiseAppend<T>(s: seq<T>, t: seq<T>, ok: (T, T) -> bool)
    requires Pairwise(s, ok) && Pairwise(t, ok)
    requires forall x, y :: x in s && y in t ==> ok(x, y)
    ensures Pairwise(s + t, ok)
  {
    var u := s + t;
    forall i, j | 0 <= i < j < |u| ensures ok(u[i], u[j]) {
      if j < |s| {
        assert u[i] == s[i] && u[j] == s[j];
      } else if i >= |s| {
        assert u[i] == t[i - |s|] && u[j] == t[j - |s|];
      } else {
        assert u[i] in s && u[j] == t[j - |s|];
      }
    }
  }

  /** Filtering keeps a pairwise property: a deletion from a table can never
      create a clash between the rows that remain. */
  lemma {:induction false} FilterKeepsPairwise<T(!new)>(s: seq<T>, p: T -> bool, ok: (T, T) -> bool)
    requires Pairwise(s, ok)
    ensures Pairwise(Filter(s, p), ok)
  {
    if s != [] {
      var tail := s[1..];
      assert Pairwise(tail, ok) by {
        forall i, j | 0 <= i < j < |tail| ensures ok(tail[i], tail[j]) {
          assert tail[i] == s[i + 1] && tail[j] == s[j + 1];
        }
      }
      FilterKeepsPairwise(tail, p, ok);
      var rest := Filter(tail, p);
      if p(s[0]) {
        forall y | y in rest ensures ok(s[0], y) {
          var k :| 0 <= k < |tail| && tail[k] == y;
          assert s[k + 1] == y;
        }
        PairwiseCons(s[0], rest, ok);
      } else {
        assert Filter(s, p) == rest;
      }
    }
  }
}
