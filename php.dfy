/** The PHP built-ins and operators the SDK's logic rests on, restricted to
    the JSON values a decoded response body can hold. */
module Php {
  import opened Decimal
  import opened Json

  /** PHP_INT_MIN and PHP_INT_MAX on a 64-bit build. */
  const IntMin: int := -0x8000_0000_0000_0000
  const IntMax: int := 0x7FFF_FFFF_FFFF_FFFF

  /** `rtrim(s, c)`: `s` without the run of `c` at its end. */
  function TrimRight(s: string, c: char): string
    decreases |s|
  {
    if |s| > 0 && s[|s| - 1] == c then TrimRight(s[..|s| - 1], c) else s
  }

  /** `ltrim(s, c)`: `s` without the run of `c` at its start. */
  function TrimLeft(s: string, c: char): string
    decreases |s|
  {
    if |s| > 0 && s[0] == c then TrimLeft(s[1..], c) else s
  }

  /** `rtrim` keeps a prefix, removes only copies of `c`, and leaves no `c` at the end. */
  lemma {:induction false} TrimRightShape(s: string, c: char)
    ensures var r := TrimRight(s, c);
      && r <= s
      && (forall i :: |r| <= i < |s| ==> s[i] == c)
      && (r == [] || r[|r| - 1] != c)
    decreases |s|
  {
    if |s| > 0 && s[|s| - 1] == c {
      TrimRightShape(s[..|s| - 1], c);
    }
  }

  /** `ltrim` keeps a suffix, removes only copies of `c`, and leaves no `c` at the start. */
  lemma {:induction false} TrimLeftShape(s: string, c: char)
    ensures var r := TrimLeft(s, c);
      && |r| <= |s| && r == s[|s| - |r|..]
      && (forall i :: 0 <= i < |s| - |r| ==> s[i] == c)
      && (r == [] || r[0] != c)
    decreases |s|
  {
    if |s| > 0 && s[0] == c {
      TrimLeftShape(s[1..], c);
    }
  }

  /** `n` copies of the character `c`. */
  function Repeat(c: char, n: nat): (r: string)
    ensures |r| == n && forall i :: 0 <= i < n ==> r[i] == c
  {
    if n == 0 then [] else Repeat(c, n - 1) + [c]
  }

  /** Extra copies of `c` at the end make no difference to `rtrim`. */
  lemma {:induction false} TrimRightPadded(s: string, c: char, n: nat)
    ensures TrimRight(s + Repeat(c, n), c) == TrimRight(s, c)
    decreases n
  {
    if n == 0 {
      assert s + Repeat(c, 0) == s;
    } else {
      var t := s + Repeat(c, n);
      assert t[..|t| - 1] == s + Repeat(c, n - 1);
      TrimRightPadded(s, c, n - 1);
    }
  }

  /** Extra copies of `c` at the start make no difference to `ltrim`. */
  lemma {:induction false} TrimLeftPadded(s: string, c: char, n: nat)
    ensures TrimLeft(Repeat(c, n) + s, c) == TrimLeft(s, c)
    decreases n
  {
    if n == 0 {
      assert Repeat(c, 0) + s == s;
    } else {
      var t := Repeat(c, n) + s;
      var u := Repeat(c, n - 1);
      assert t[0] == c;
      assert |t[1..]| == |u + s|;
      forall i | 0 <= i < |t[1..]| ensures t[1..][i] == (u + s)[i] {
        if i < n - 1 {
          assert t[1..][i] == c == u[i];
        }
      }
      assert t[1..] == u + s;
      TrimLeftPadded(s, c, n - 1);
    }
  }

  /** PHP's `(bool)` cast of a decoded JSON value. Objects decode to arrays,
      so an empty object is false like an empty list. */
  predicate Truthy(v: JValue) {
    match v
    case JNull => false
    case JBool(b) => b
    case JInt(i) => i != 0
    case JString(s) => s != "" && s != "0"
    case JArray(a) => |a| > 0
    case JObject(m) => |m| > 0
  }

  /** An optionally signed run of decimal digits. */
  predicate IsIntegerString(s: string) {
    if |s| >= 1 && (s[0] == '+' || s[0] == '-') then |s| >= 2 && AllDigits(s[1..])
    else |s| >= 1 && AllDigits(s)
  }

  /** `is_numeric` on a decoded JSON value. */
  predicate IsNumeric(v: JValue) {
    match v
    case JInt(_) => true
    case JString(s) => IsIntegerString(s)
    case _ => false
  }

  function Clamp(n: int): (r: int)
    ensures IntMin <= r <= IntMax
    ensures IntMin <= n <= IntMax ==> r == n
  {
    if n < IntMin then IntMin else if n > IntMax then IntMax else n
  }

  /** `(int)` on a numeric value: an integer stays as it is; a numeric string
      is read in base ten and saturates at the 64-bit bounds. */
  function IntCast(v: JValue): (r: int)
    requires IsNumeric(v)
    ensures v.JInt? ==> r == v.i
    ensures v.JString? ==> IntMin <= r <= IntMax
  {
    match v
    case JInt(i) => i
    case JString(s) =>
      if s[0] == '-' then Clamp(0 - DigitsValue(s[1..]))
      else if s[0] == '+' then Clamp(DigitsValue(s[1..]))
      else Clamp(DigitsValue(s))
  }

  /** The decimal spelling of an integer, as PHP's `(string)` writes it. */
  function ShowInt(i: int): string {
    if i < 0 then "-" + Show(-i) else Show(i)
  }

  /** Every 64-bit integer written as a string is numeric and casts back to itself. */
  lemma IntCastShowInt(i: int)
    requires IntMin <= i <= IntMax
    ensures IsNumeric(JString(ShowInt(i)))
    ensures IntCast(JString(ShowInt(i))) == i
  {
    if i < 0 {
      assert ("-" + Show(-i))[1..] == Show(-i);
      ValueOfShow(-i);
    } else {
      ValueOfShow(i);
    }
  }

  /** `(int)` on the numeric spellings of a digit run `d`: the bare and the
      `+` spelling read `d` in base ten, leading zeros and all, and the `-`
      spelling its negation; each saturates at the 64-bit bounds. */
  lemma IntCastDigits(d: string)
    requires |d| >= 1 && AllDigits(d)
    ensures IsNumeric(JString(d)) && IsNumeric(JString("+" + d)) && IsNumeric(JString("-" + d))
    ensures IntCast(JString(d)) == Clamp(DigitsValue(d))
    ensures IntCast(JString("+" + d)) == Clamp(DigitsValue(d))
    ensures IntCast(JString("-" + d)) == Clamp(0 - DigitsValue(d))
  {
    assert ("+" + d)[1..] == d;
    assert ("-" + d)[1..] == d;
    assert IsDigit(d[0]);
  }

  /** A digit run worth more than `IntMax` casts to `IntMax`, and its
      negative spelling to `IntMin`. */
  lemma IntCastSaturates(d: string)
    requires |d| >= 1 && AllDigits(d) && DigitsValue(d) > IntMax
    ensures IntCast(JString(d)) == IntMax && IntCast(JString("+" + d)) == IntMax
    ensures IntCast(JString("-" + d)) == IntMin
  {
    IntCastDigits(d);
  }

  /** `"+007"` is 7 and `"-0"` is 0. */
  lemma IntCastSignedExamples()
    ensures IntCast(JString("+007")) == 7
    ensures IntCast(JString("-0")) == 0
  {
    assert "+007" == "+" + "007" && "-0" == "-" + "0";
    assert "007"[..2] == "00" && "00"[..1] == "0" && "0"[..0] == "";
    IntCastDigits("007");
    IntCastDigits("0");
  }

  /** Twenty nines saturate to `IntMax`, and with a minus to `IntMin`. */
  lemma IntCastSaturationExamples(nines: string)
    requires nines == Repeat('9', 20)
    ensures IntCast(JString(nines)) == IntMax && IntCast(JString("-" + nines)) == IntMin
  {
    assert AllDigits(nines) by {
      forall i | 0 <= i < |nines| ensures IsDigit(nines[i]) {
        assert nines[i] == '9';
      }
    }
    DigitsValueLowerBound(nines);
    Pow10Nineteen();
    IntCastSaturates(nines);
  }

  /** PHP's `a ?? b ?? ...`: the first candidate that is not null, or null. */
  function Coalesce(candidates: seq<JValue>): (r: JValue)
    ensures r == JNull <==> forall i :: 0 <= i < |candidates| ==> candidates[i] == JNull
    ensures r != JNull ==>
      exists i :: 0 <= i < |candidates| && candidates[i] == r &&
        (forall j :: 0 <= j < i ==> candidates[j] == JNull)
    decreases |candidates|
  {
    if candidates == [] then JNull
    else if candidates[0] != JNull then candidates[0]
    else
      var r := Coalesce(candidates[1..]);
      assert forall i :: 1 <= i < |candidates| ==> candidates[i] == candidates[1..][i - 1];
      r
  }

  /** The chain is decided by its first non-null candidate; later ones are never looked at. */
  lemma {:induction false} CoalesceAt(candidates: seq<JValue>, k: nat)
    requires k < |candidates| && candidates[k] != JNull
    requires forall j :: 0 <= j < k ==> candidates[j] == JNull
    ensures Coalesce(candidates) == candidates[k]
    decreases k
  {
    if k > 0 {
      CoalesceAt(candidates[1..], k - 1);
    }
  }

  /** A three-way chain `a ?? b ?? c`. */
  lemma CoalesceThree(a: JValue, b: JValue, c: JValue)
    ensures Coalesce([a, b, c]) == if a != JNull then a else if b != JNull then b else c
  {
    assert [a, b, c][1..] == [b, c];
    assert [b, c][1..] == [c];
    assert [c][1..] == [];
    assert Coalesce([c]) == c;
    assert Coalesce([b, c]) == if b != JNull then b else c;
  }

  /** `array_merge(a, b)` on string-keyed arrays: every key of either, and
      the later array's value wherever both have the key. */
  function ArrayMerge(a: map<string, JValue>, b: map<string, JValue>): (r: map<string, JValue>)
    ensures r.Keys == a.Keys + b.Keys
    ensures forall k :: k in b ==> r[k] == b[k]
    ensures forall k :: k in a && k !in b ==> r[k] == a[k]
  {
    a + b
  }
}
