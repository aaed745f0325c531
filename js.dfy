/** The part of JavaScript's value model that the request handlers rely on:
    the values a JSON request body can carry, `typeof` tests, truthiness,
    `String.prototype.trim`, and the two field checks every handler repeats:
      a string field:  typeof v === 'string' && v.trim().length > min ? v : false
      a number field:  typeof v === 'number' ? v : false
    followed by the presence test `x` (strings) or `x || x === 0` (numbers). */
module Js {

  /** A value read from a parsed request body. `Obj` stands for objects and arrays.
      JSON has no NaN, but `JSON.parse` reads an out-of-range literal such as `1e400`
      as Infinity; numbers here are finite reals only. */
  datatype Value = Undefined | Null | Bool(b: bool) | Num(x: real) | Str(s: string) | Obj

  /** `req.body`: property name to value; a missing property reads as undefined. */
  type Body = map<string, Value>

  /** `req.body[k]` */
  function Field(body: Body, k: string): Value {
    if k in body then body[k] else Undefined
  }

  /** JavaScript truthiness: exactly false, 0, "", null and undefined are falsy. */
  predicate Truthy(v: Value)
    ensures Truthy(v) <==> v !in {Undefined, Null, Bool(false), Num(0.0), Str("")}
  {
    match v
    case Undefined => false
    case Null => false
    case Bool(b) => b
    case Num(x) => x != 0.0
    case Str(s) => s != []
    case Obj => true
  }

  /** The ECMAScript WhiteSpace and LineTerminator code points that `trim` removes. */
  predicate IsWhitespace(c: char) {
    var n := c as int;
    (n <= 0x20 && (0x09 <= n <= 0x0D || n == 0x20))
    || (0xA0 <= n && (n == 0xA0 || n == 0x1680 || (0x2000 <= n <= 0x200A) || n == 0x2028
                      || n == 0x2029 || n == 0x202F || n == 0x205F || n == 0x3000 || n == 0xFEFF))
  }

  /** Strips leading whitespace: the result is a suffix of `s`, everything dropped
      is whitespace, and what is left starts with a non-whitespace character. */
  function TrimStart(s: string): (r: string)
    ensures |r| <= |s| && r == s[|s| - |r|..]
    ensures forall k :: 0 <= k < |s| - |r| ==> IsWhitespace(s[k])
    ensures r != [] ==> !IsWhitespace(r[0])
  {
    if s != [] && IsWhitespace(s[0]) then TrimStart(s[1..]) else s
  }

  /** Strips trailing whitespace: the result is a prefix of `s`, everything dropped
      is whitespace, and what is left ends with a non-whitespace character. */
  function TrimEnd(s: string): (r: string)
    ensures |r| <= |s| && r == s[..|r|]
    ensures forall k :: |r| <= k < |s| ==> IsWhitespace(s[k])
    ensures r != [] ==> !IsWhitespace(r[|r| - 1])
  {
    if s != [] && IsWhitespace(s[|s| - 1]) then TrimEnd(s[..|s| - 1]) else s
  }

  /** `s.trim()`: a slice of `s` with only whitespace outside it, which neither
      starts nor ends with whitespace. */
  function Trim(s: string): (r: string)
    ensures exists i :: 0 <= i <= |s| && |r| <= |s[i..]| && r == s[i..][..|r|]
                        && (forall k :: 0 <= k < i ==> IsWhitespace(s[k]))
                        && (forall k :: i + |r| <= k < |s| ==> IsWhitespace(s[k]))
    ensures r != [] ==> !IsWhitespace(r[0]) && !IsWhitespace(r[|r| - 1])
  {
    TrimSlice(s);
    TrimEnd(TrimStart(s))
  }

  /** Where `Trim(s)` sits in `s`: right after the leading whitespace, with only
      whitespace after it. */
  lemma TrimSlice(s: string)
    ensures var t := TrimStart(s);
            var r := TrimEnd(t);
            var i := |s| - |t|;
            t == s[i..] && r == s[i..][..|r|]
            && forall k :: i + |r| <= k < |s| ==> IsWhitespace(s[k])
  {
    var t := TrimStart(s);
    var r := TrimEnd(t);
    var i := |s| - |t|;
    assert t == s[i..] && r == t[..|r|];
    forall k | i + |r| <= k < |s| ensures IsWhitespace(s[k]) {
      assert |r| <= k - i < |t| && IsWhitespace(t[k - i]);
      assert s[k] == t[k - i];
    }
  }

  /** A string trims to nothing exactly when all of its characters are whitespace;
      so `trim().length > 0` means "has some non-whitespace content". */
  lemma TrimEmptyIffBlank(s: string)
    ensures Trim(s) == [] <==> forall k :: 0 <= k < |s| ==> IsWhitespace(s[k])
  {
    var t := TrimStart(s);
    if Trim(s) == [] {
      forall k | 0 <= k < |s| ensures IsWhitespace(s[k]) {
        if k >= |s| - |t| {
          assert s[k] == t[k - (|s| - |t|)];
        }
      }
    } else {
      var r := Trim(s);
      assert r[0] == t[0] == s[|s| - |t|];
    }
  }

  /** A string that neither starts nor ends with whitespace is its own trim. */
  lemma TrimOfSolid(s: string)
    requires s != [] && !IsWhitespace(s[0]) && !IsWhitespace(s[|s| - 1])
    ensures Trim(s) == s
  {
  }

  /** Trimming twice is trimming once. */
  lemma TrimIdempotent(s: string)
    ensures Trim(Trim(s)) == Trim(s)
  {
    var r := Trim(s);
    if r != [] {
      var t := TrimStart(s);
      assert r[0] == t[0];
      TrimOfSolid(r);
    }
  }

  /** The string check as a property: a string whose trimmed length exceeds `min`. */
  predicate ValidStr(v: Value, min: nat) {
    v.Str? && |Trim(v.s)| > min
  }

  /** The number check as a property: any number, zero included. */
  predicate IsNum(v: Value) {
    v.Num?
  }

  /** `typeof v === 'string' && v.trim().length > min ? v : false`, followed by the
      handlers' `if (field)`: the test passes exactly for a valid string, and a passing
      value is the body's own string. */
  function CheckStr(v: Value, min: nat): (r: Value)
    ensures Truthy(r) <==> ValidStr(v, min)
    ensures Truthy(r) ==> r == v
    ensures !Truthy(r) ==> r == Bool(false)
  {
    if v.Str? && |Trim(v.s)| > min then v else Bool(false)
  }

  /** `typeof v === 'number' ? v : false`, followed by `x || x === 0`: the test passes
      exactly for a number, zero included, and a passing value is the body's own number. */
  function CheckNum(v: Value): (r: Value)
    ensures Given(r) <==> IsNum(v)
    ensures Given(r) ==> r == v
    ensures !Given(r) ==> r == Bool(false)
  {
    if v.Num? then v else Bool(false)
  }

  /** `x || x === 0`, the presence test applied to checked numbers: it fails only for
      the falsy values that are not numbers. */
  predicate Given(v: Value)
    ensures Given(v) <==> v !in {Undefined, Null, Bool(false), Str("")}
  {
    Truthy(v) || v == Num(0.0)
  }

  /** Why the `|| x === 0` is there: a checked zero is falsy, yet counts as given. */
  lemma ZeroIsFalsyButGiven()
    ensures !Truthy(CheckNum(Num(0.0))) && Given(CheckNum(Num(0.0)))
  {
  }

  /** A higher minimum accepts fewer strings. */
  lemma ValidStrAntitone(v: Value, lo: nat, hi: nat)
    requires lo <= hi && ValidStr(v, hi)
    ensures ValidStr(v, lo)
  {
  }

  /** An update's `if (field) { record.field = field; }` on a string field. */
  function Overwrite(current: string, v: Value, min: nat): string {
    if ValidStr(v, min) then v.s else current
  }

  /** An update's `if (field || field === 0) { record.field = field; }` on a number field. */
  function OverwriteNum(current: real, v: Value): real {
    if IsNum(v) then v.x else current
  }

  /** A number that names a position of a table of length `n`: `arr[x]` finds an element. */
  predicate IsIndex(v: Value, n: nat) {
    v.Num? && v.x.Floor as real == v.x && 0 <= v.x.Floor < n
  }

  /** The position a numeric index names. */
  function Index(v: Value, n: nat): (i: nat)
    requires IsIndex(v, n)
    ensures i < n && i as real == v.x
  {
    v.x.Floor
  }
}
