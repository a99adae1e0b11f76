/** A decoded JSON body as Laravel's `Response::json()` sees it (objects decode
    to associative arrays), and `$response->json('a.b')`, which is Laravel's
    `data_get` on a dot-separated key. */
module Json {
  import opened Decimal

  datatype JValue =
    | JNull
    | JBool(b: bool)
    | JInt(i: int)
    | JString(s: string)
    | JArray(items: seq<JValue>)
    | JObject(fields: map<string, JValue>)

  /** PHP's `explode('.', key)`: the segments between the dots, empty ones included. */
  function Segments(key: string): (parts: seq<string>)
    ensures |parts| >= 1
    decreases |key|
  {
    if key == [] then [""]
    else if key[0] == '.' then [""] + Segments(key[1..])
    else
      var rest := Segments(key[1..]);
      [[key[0]] + rest[0]] + rest[1..]
  }

  /** PHP's `implode('.', parts)`. */
  function Implode(parts: seq<string>): string
    requires |parts| >= 1
    decreases |parts|
  {
    if |parts| == 1 then parts[0] else parts[0] + "." + Implode(parts[1..])
  }

  lemma {:induction false} ImplodeSegments(key: string)
    ensures Implode(Segments(key)) == key
    decreases |key|
  {
    if key != [] {
      var rest := Segments(key[1..]);
      ImplodeSegments(key[1..]);
      if key[0] == '.' {
        assert key == "." + key[1..];
      } else if |rest| == 1 {
        assert key == [key[0]] + key[1..];
      } else {
        assert Segments(key)[1..] == rest[1..];
        assert key == [key[0]] + (rest[0] + "." + Implode(rest[1..]));
      }
    }
  }

  /** Exploding a string with an inserted dot splits exactly at that dot. */
  lemma {:induction false} SegmentsDot(x: string, y: string)
    ensures Segments(x + "." + y) == Segments(x) + Segments(y)
    decreases |x|
  {
    if x == [] {
      assert (x + "." + y)[1..] == y;
    } else {
      assert (x + "." + y)[1..] == x[1..] + "." + y;
      SegmentsDot(x[1..], y);
    }
  }

  lemma {:induction false} SegmentsNoDot(x: string)
    requires '.' !in x
    ensures Segments(x) == [x]
    decreases |x|
  {
    if x != [] {
      assert x[1..] == x[1..] && forall i :: 0 <= i < |x[1..]| ==> x[1..][i] == x[i + 1];
      SegmentsNoDot(x[1..]);
      assert x == [x[0]] + x[1..];
    }
  }

  /** Exploding an imploded list of dot-free segments gives the list back. */
  lemma {:induction false} SegmentsImplode(parts: seq<string>)
    requires |parts| >= 1
    requires forall i :: 0 <= i < |parts| ==> '.' !in parts[i]
    ensures Segments(Implode(parts)) == parts
    decreases |parts|
  {
    SegmentsNoDot(parts[0]);
    if |parts| > 1 {
      SegmentsDot(parts[0], Implode(parts[1..]));
      SegmentsImplode(parts[1..]);
      assert parts == [parts[0]] + parts[1..];
    }
  }

  /** One step of `data_get`: an object member, or a list element when the
      segment is a canonical index; anything else is missing (null). */
  function Step(v: JValue, segment: string): (r: JValue)
    ensures r != JNull ==> v.JObject? || v.JArray?
    ensures v.JObject? ==> r == (if segment in v.fields then v.fields[segment] else JNull)
  {
    match v
    case JObject(m) => if segment in m then m[segment] else JNull
    case JArray(a) =>
      if IsCanonical(segment) && DigitsValue(segment) < |a| then a[DigitsValue(segment)] else JNull
    case _ => JNull
  }

  /** `data_get` on a list of segments: null as soon as a step is missing. */
  function DataGet(v: JValue, path: seq<string>): JValue
    decreases |path|
  {
    if path == [] then v else DataGet(Step(v, path[0]), path[1..])
  }

  /** `$response->json(key)` for a decoded body. */
  function JsonAt(body: JValue, key: string): JValue {
    DataGet(body, Segments(key))
  }

  /** Nothing can be found below a null. */
  lemma {:induction false} DataGetNull(path: seq<string>)
    ensures DataGet(JNull, path) == JNull
    decreases |path|
  {
    if path != [] {
      DataGetNull(path[1..]);
    }
  }

  /** Looking up a path in two pieces is looking up the whole path. */
  lemma {:induction false} DataGetAppend(v: JValue, p: seq<string>, q: seq<string>)
    ensures DataGet(v, p + q) == DataGet(DataGet(v, p), q)
    decreases |p|
  {
    if p == [] {
      assert p + q == q;
    } else {
      assert (p + q)[1..] == p[1..] + q;
      DataGetAppend(Step(v, p[0]), p[1..], q);
    }
  }

  /** A non-null result means every step of the path was present. */
  lemma {:induction false} DataGetFound(v: JValue, path: seq<string>)
    requires DataGet(v, path) != JNull
    ensures forall k :: 0 <= k < |path| ==> DataGet(v, path[..k]).JObject? || DataGet(v, path[..k]).JArray?
    decreases |path|
  {
    if path != [] {
      if Step(v, path[0]) == JNull {
        DataGetNull(path[1..]);
        assert false;
      }
      DataGetFound(Step(v, path[0]), path[1..]);
      forall k | 0 <= k < |path|
        ensures DataGet(v, path[..k]).JObject? || DataGet(v, path[..k]).JArray?
      {
        if k > 0 {
          assert path[..k] == [path[0]] + path[1..][..k - 1];
          DataGetAppend(v, [path[0]], path[1..][..k - 1]);
        } else {
          assert path[..0] == [];
        }
      }
    }
  }

  /** `json('a.b')` is `json('b')` applied to the result of `json('a')`. */
  lemma JsonAtDot(body: JValue, x: string, y: string)
    ensures JsonAt(body, x + "." + y) == JsonAt(JsonAt(body, x), y)
  {
    SegmentsDot(x, y);
    DataGetAppend(body, Segments(x), Segments(y));
  }

  /** A dot-free key is a single step. */
  lemma JsonAtKey(body: JValue, key: string)
    requires '.' !in key
    ensures JsonAt(body, key) == Step(body, key)
  {
    SegmentsNoDot(key);
    assert DataGet(body, [key]) == DataGet(Step(body, key), [key][1..]);
    assert [key][1..] == [];
  }

  /** A key `a.b` with dot-free halves is two steps. */
  lemma JsonAtPair(body: JValue, x: string, y: string)
    requires '.' !in x && '.' !in y
    ensures JsonAt(body, x + "." + y) == Step(Step(body, x), y)
  {
    JsonAtDot(body, x, y);
    JsonAtKey(body, x);
    JsonAtKey(Step(body, x), y);
  }
}
