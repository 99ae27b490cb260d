/** Parsed server replies, and the org.json accessors the plugin applies to them.
    Every accessor returns None exactly where org.json throws a JSONException. */
module Json {
  import opened Common

  /** A parsed JSON value. Objects keep their members in order; org.json's JSONObject.NULL
      is `JNull`, which is never the same thing as a missing member. */
  datatype Json =
    | JNull
    | JBool(b: bool)
    | JInt(n: int)
    | JStr(s: string)
    | JArr(items: seq<Json>)
    | JObj(members: seq<Member>)

  datatype Member = Member(key: string, value: Json)

  /** The value of the first member named `k`. */
  function Find(ms: seq<Member>, k: string): (r: Option<Json>)
    ensures r.Some? <==> exists i | 0 <= i < |ms| :: ms[i].key == k
  {
    if ms == [] then None
    else if ms[0].key == k then Some(ms[0].value)
    else Find(ms[1..], k)
  }

  /** `JSONObject.get(k)`: None where org.json throws (no such member, or not an object). */
  function Get(o: Json, k: string): Option<Json>
  {
    if o.JObj? then Find(o.members, k) else None
  }

  /** `JSONObject.has(k)`. */
  predicate Has(o: Json, k: string)
  {
    Get(o, k).Some?
  }

  /** `getJSONObject(k)`, and equally the cast `(JSONObject) get(k)`. */
  function GetObject(o: Json, k: string): Option<Json>
  {
    match Get(o, k)
    case Some(JObj(ms)) => Some(JObj(ms))
    case _ => None
  }

  /** `getJSONArray(k)`, and equally the cast `(JSONArray) get(k)`. */
  function GetArray(o: Json, k: string): Option<seq<Json>>
  {
    match Get(o, k)
    case Some(JArr(items)) => Some(items)
    case _ => None
  }

  /** `getString(k)`: only a string member is accepted. */
  function GetString(o: Json, k: string): Option<string>
  {
    match Get(o, k)
    case Some(JStr(s)) => Some(s)
    case _ => None
  }

  /** `getInt(k)` / `JSONArray.getInt(i)` on the value: a number is narrowed to `int`,
      a string is read by `Integer.parseInt`, anything else is refused. */
  function ToInt(v: Json): (r: Option<int>)
    ensures r.Some? ==> IsInt32(r.value)
  {
    match v
    case JInt(n) => Some(Wrap32(n))
    case JStr(s) => ParseInt(s)
    case _ => None
  }

  function GetInt(o: Json, k: string): (r: Option<int>)
    ensures r.Some? ==> IsInt32(r.value)
  {
    match Get(o, k)
    case Some(v) => ToInt(v)
    case None => None
  }

  /** `JSONObject.put(k, v)`: overwrite the member named `k` in place, or add it at the end. */
  function PutMember(ms: seq<Member>, k: string, v: Json): (r: seq<Member>)
    ensures |r| == |ms| || |r| == |ms| + 1
  {
    if ms == [] then [Member(k, v)]
    else if ms[0].key == k then [Member(k, v)] + ms[1..]
    else [ms[0]] + PutMember(ms[1..], k, v)
  }

  function Put(o: Json, k: string, v: Json): Json
  {
    if o.JObj? then JObj(PutMember(o.members, k, v)) else o
  }

  /** After a put, the member reads back as the value put. */
  lemma {:induction false} FindPutSame(ms: seq<Member>, k: string, v: Json)
    ensures Find(PutMember(ms, k, v), k) == Some(v)
  {
    if ms != [] && ms[0].key != k {
      FindPutSame(ms[1..], k, v);
    }
  }

  /** A put leaves every other member as it was. */
  lemma {:induction false} FindPutOther(ms: seq<Member>, k: string, v: Json, k': string)
    requires k' != k
    ensures Find(PutMember(ms, k, v), k') == Find(ms, k')
  {
    if ms != [] && ms[0].key != k {
      FindPutOther(ms[1..], k, v, k');
    }
  }

  lemma GetPut(o: Json, k: string, v: Json, k': string)
    requires o.JObj?
    ensures Get(Put(o, k, v), k') == if k' == k then Some(v) else Get(o, k')
  {
    if k' == k { FindPutSame(o.members, k, v); } else { FindPutOther(o.members, k, v, k'); }
  }

  // ---------------------------------------------------------------------------
  // Paths of member names through nested objects.

  /** The value reached by following `path` through nested objects. */
  function At(j: Json, path: seq<string>): Option<Json>
    decreases |path|
  {
    if path == [] then Some(j)
    else
      match Get(j, path[0])
      case Some(child) => At(child, path[1..])
      case None => None
  }

  /** `At`, when the value reached is an object. */
  function ObjectAt(j: Json, path: seq<string>): Option<Json>
  {
    match At(j, path)
    case Some(JObj(ms)) => Some(JObj(ms))
    case _ => None
  }

  /** The member named `k`, or a fresh empty object when there is none. */
  function Child(j: Json, k: string): Json
  {
    match Get(j, k)
    case Some(c) => c
    case None => JObj([])
  }

  /** Put `v` at the end of `path`, updating every object on the way in place. */
  function PutPath(j: Json, path: seq<string>, v: Json): Json
    decreases |path|
  {
    if path == [] then v
    else Put(j, path[0], PutPath(Child(j, path[0]), path[1..], v))
  }

  /** One hop of `PutPath`. */
  lemma PutPathStep(j: Json, k: string, rest: seq<string>, v: Json)
    ensures PutPath(j, [k] + rest, v) == Put(j, k, PutPath(Child(j, k), rest, v))
  {
    assert ([k] + rest)[0] == k && ([k] + rest)[1..] == rest;
  }

  /** `p` leaves `path` at some member name: neither is a prefix of the other. */
  predicate Diverges(p: seq<string>, path: seq<string>)
  {
    exists i | 0 <= i < |p| && i < |path| :: p[i] != path[i]
  }

  /** Writing at one path leaves every path that leaves it elsewhere as it was. */
  lemma {:induction false} PutPathElsewhere(j: Json, path: seq<string>, v: Json, p: seq<string>)
    requires Diverges(p, path)
    ensures At(PutPath(j, path, v), p) == At(j, p)
    decreases |path|
  {
    if j.JObj? {
      var child := Child(j, path[0]);
      var child' := PutPath(child, path[1..], v);
      GetPut(j, path[0], child', p[0]);
      if p[0] == path[0] {
        var i :| 0 <= i < |p| && i < |path| && p[i] != path[i];
        assert Diverges(p[1..], path[1..]) by {
          assert p[1..][i - 1] != path[1..][i - 1];
        }
        PutPathElsewhere(child, path[1..], v, p[1..]);
        if Get(j, path[0]).None? {
          assert p[1..] != [];
          assert At(JObj([]), p[1..]) == None;
        }
      }
    }
  }

  /** A put along a path whose objects above the last name all exist reads back. */
  lemma {:induction false} PutPathReads(j: Json, path: seq<string>, v: Json)
    requires |path| > 0 && ObjectAt(j, path[..|path| - 1]).Some?
    ensures At(PutPath(j, path, v), path) == Some(v)
    decreases |path|
  {
    if |path| == 1 {
      assert path[..0] == [];
      GetPut(j, path[0], v, path[0]);
      assert PutPath(j, path, v) == Put(j, path[0], v);
    } else {
      var init := path[..|path| - 1];
      assert init[0] == path[0] && init[1..] == path[1..][..|path[1..]| - 1];
      var child := Get(j, path[0]).value;
      assert j.JObj?;
      PutPathReads(child, path[1..], v);
      GetPut(j, path[0], PutPath(child, path[1..], v), path[0]);
    }
  }

  // ---------------------------------------------------------------------------
  // Decimal text of integers: String.valueOf(int) and Integer.parseInt.

  predicate IsDigit(c: char) { '0' <= c <= '9' }

  function Digit(d: nat): (c: char)
    requires d < 10
    ensures IsDigit(c) && c as int - '0' as int == d
  {
    (d + '0' as int) as char
  }

  /** The decimal digits of `n`, most significant first, without leading zeros. */
  function NatToString(n: nat): (s: string)
    ensures |s| > 0 && forall i | 0 <= i < |s| :: IsDigit(s[i])
  {
    if n < 10 then [Digit(n)] else NatToString(n / 10) + [Digit(n % 10)]
  }

  /** `String.valueOf(int)` (and of `long`). */
  function IntToString(n: int): string
  {
    if n < 0 then "-" + NatToString(-n) else NatToString(n)
  }

  /** The value of a string of decimal digits, read left to right. */
  function DigitsValue(s: string): nat
    requires forall i | 0 <= i < |s| :: IsDigit(s[i])
  {
    if s == [] then 0
    else
      assert IsDigit(s[|s| - 1]);
      DigitsValue(s[..|s| - 1]) * 10 + (s[|s| - 1] as int - '0' as int)
  }

  predicate AllDigits(s: string)
  {
    |s| > 0 && forall i | 0 <= i < |s| :: IsDigit(s[i])
  }

  /** `Integer.parseInt`: an optional sign, then at least one ASCII digit, and a value
      that fits in `int`; None where Java throws NumberFormatException. */
  function ParseInt(s: string): (r: Option<int>)
    ensures r.Some? ==> IsInt32(r.value)
  {
    if s == [] then None
    else
      var neg := s[0] == '-';
      var digits := if s[0] == '-' || s[0] == '+' then s[1..] else s;
      if !AllDigits(digits) then None
      else
        var mag: int := DigitsValue(digits);
        var v := if neg then -mag else mag;
        if IsInt32(v) then Some(v) else None
  }

  lemma {:induction false} DigitsValueOfNat(n: nat)
    ensures DigitsValue(NatToString(n)) == n
  {
    var s := NatToString(n);
    if n >= 10 {
      DigitsValueOfNat(n / 10);
      assert s[..|s| - 1] == NatToString(n / 10);
    }
  }

  /** Reading back the decimal text of any Java `int` gives the same number. */
  lemma ParseIntRoundTrip(n: int)
    requires IsInt32(n)
    ensures ParseInt(IntToString(n)) == Some(n)
  {
    var m := if n < 0 then -n else n;
    DigitsValueOfNat(m);
    var s := IntToString(n);
    if n < 0 {
      assert s[1..] == NatToString(m);
    } else {
      assert s[0] != '-' && s[0] != '+';
    }
  }

  lemma ToIntOfText(n: int)
    requires IsInt32(n)
    ensures ToInt(JStr(IntToString(n))) == Some(n)
  {
    ParseIntRoundTrip(n);
  }

  // ---------------------------------------------------------------------------
  // toString of a value.

  /** `Object.toString()` of a value got from a JSONObject: a string is itself, anything
      else is its JSON text. */
  function Render(v: Json): string
  {
    if v.JStr? then v.s else Encode(v)
  }

  /** JSON text of a value; string escapes are not modelled. */
  function Encode(v: Json): string
    decreases v, 1
  {
    match v
    case JNull => "null"
    case JBool(b) => if b then "true" else "false"
    case JInt(n) => IntToString(n)
    case JStr(s) => "\"" + s + "\""
    case JArr(items) => "[" + EncodeItems(v, items) + "]"
    case JObj(ms) => "{" + EncodeMembers(v, ms) + "}"
  }

  function EncodeItems(parent: Json, items: seq<Json>): string
    requires forall i | 0 <= i < |items| :: items[i] < parent
    decreases parent, 0, |items|
  {
    if items == [] then ""
    else if |items| == 1 then Encode(items[0])
    else Encode(items[0]) + "," + EncodeItems(parent, items[1..])
  }

  function EncodeMembers(parent: Json, ms: seq<Member>): string
    requires forall i | 0 <= i < |ms| :: ms[i].value < parent
    decreases parent, 0, |ms|
  {
    if ms == [] then ""
    else
      var head := "\"" + ms[0].key + "\":" + Encode(ms[0].value);
      if |ms| == 1 then head else head + "," + EncodeMembers(parent, ms[1..])
  }
}
