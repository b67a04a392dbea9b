/**
 * The parsed JSON replies of the AI providers, and the few JavaScript operations the
 * enrichment code applies to them: property reads, truthiness, `typeof`, numeric coercion
 * and object spread.
 */
module Json {
  import opened Wrappers
  import opened Text

  /** A value produced by `JSON.parse`; object key order is not kept. */
  datatype JsValue =
    | JNull
    | JBool(b: bool)
    | JNum(n: real)
    | JStr(s: string)
    | JArray(items: seq<JsValue>)
    | JObject(fields: map<string, JsValue>)

  /** `v.key` on a non-null value; `None` is `undefined`. Only objects carry the keys read here. */
  function Prop(v: JsValue, key: string): (r: Option<JsValue>)
    ensures r.Some? <==> v.JObject? && key in v.fields
  {
    if v.JObject? && key in v.fields then Some(v.fields[key]) else None
  }

  /** The message of the `TypeError` that reading a property of `null` raises. */
  function NullRead(key: string): string {
    "Cannot read properties of null (reading '" + key + "')"
  }

  /** `v.key`, which throws on `null`. */
  function Read(v: JsValue, key: string): (r: Result<Option<JsValue>>)
    ensures r.Failure? <==> v.JNull?
    ensures r.Failure? ==> r.error == NullRead(key)
    ensures r.Success? ==> r.value == Prop(v, key)
  {
    if v.JNull? then Failure(NullRead(key)) else Success(Prop(v, key))
  }

  /** `o?.key`: `undefined` when `o` is `null` or `undefined`. */
  function OptProp(o: Option<JsValue>, key: string): (r: Option<JsValue>)
    ensures r.Some? ==> o.Some? && o.value.JObject? && key in o.value.fields
  {
    if o.Some? then Prop(o.value, key) else None
  }

  /** JavaScript truthiness; `None` is `undefined`. NaN does not arise from `JSON.parse`. */
  predicate Truthy(o: Option<JsValue>) {
    match o
    case None => false
    case Some(v) =>
      match v
      case JNull => false
      case JBool(b) => b
      case JNum(n) => n != 0.0
      case JStr(s) => s != ""
      case JArray(_) => true
      case JObject(_) => true
  }

  /** `typeof`. */
  function TypeOf(o: Option<JsValue>): (r: string)
    ensures r == "boolean" <==> o.Some? && o.value.JBool?
    ensures r == "number" <==> o.Some? && o.value.JNum?
  {
    match o
    case None => "undefined"
    case Some(v) =>
      match v
      case JNull => "object"
      case JBool(_) => "boolean"
      case JNum(_) => "number"
      case JStr(_) => "string"
      case JArray(_) => "object"
      case JObject(_) => "object"
  }

  /**
   * The number a relational comparison sees (`ToNumber`); `None` is NaN, which fails every
   * comparison. An array compares as the string it joins to: an empty one is 0, a single
   * element other than a boolean or an object is read through its own string form, and two
   * or more elements give a comma, hence NaN.
   */
  function ToNumber(o: Option<JsValue>): (r: Option<real>)
    ensures o.None? ==> r.None?
    ensures o.Some? && o.value.JNum? ==> r == Some(o.value.n)
    ensures o.Some? && o.value.JStr? ==> r == StringToNumber(o.value.s)
    ensures o.Some? && o.value.JObject? ==> r.None?
    ensures o.Some? && o.value.JArray? && |o.value.items| >= 2 ==> r.None?
    ensures o == Some(JArray([])) ==> r == Some(0.0)
  {
    match o
    case None => None
    case Some(v) => ValueToNumber(v)
  }

  function ValueToNumber(v: JsValue): Option<real>
  {
    match v
    case JNull => Some(0.0)
    case JBool(b) => Some(if b then 1.0 else 0.0)
    case JNum(n) => Some(n)
    case JStr(s) => StringToNumber(s)
    case JObject(_) => None
    case JArray(items) =>
      if |items| == 0 then Some(0.0)
      else if |items| > 1 then None
      else
        match items[0]
        // `[null]` joins to the empty string; `[true]` to "true"; `[{}]` to "[object Object]".
        case JNull => Some(0.0)
        case JBool(_) => None
        case JObject(_) => None
        case _ => ValueToNumber(items[0])
  }

  /** `v` inside `depth` one-element arrays. */
  function Wrap(v: JsValue, depth: nat): (r: JsValue)
    ensures depth == 0 ==> r == v
    ensures depth > 0 ==> r.JArray? && |r.items| == 1
  {
    if depth == 0 then v else JArray([Wrap(v, depth - 1)])
  }

  /** A number compares as itself however deeply it is nested in one-element arrays (`[[0.8]] >= 0.7`). */
  lemma {:induction false} WrappedNumber(n: real, depth: nat)
    ensures ToNumber(Some(Wrap(JNum(n), depth))) == Some(n)
  {
    if depth > 0 {
      WrappedNumber(n, depth - 1);
      assert Wrap(JNum(n), depth).items[0] == Wrap(JNum(n), depth - 1);
    }
  }

  predicate IsDigit(c: char) {
    '0' <= c <= '9'
  }

  predicate AllDigits(s: string) {
    forall k :: 0 <= k < |s| ==> IsDigit(s[k])
  }

  /** The value of a string of decimal digits. */
  function DigitsValue(s: string): nat
    requires AllDigits(s)
  {
    if |s| == 0 then 0 else DigitsValue(s[..|s| - 1]) * 10 + (s[|s| - 1] as int - '0' as int)
  }

  function Pow10(n: nat): (r: nat)
    ensures r >= 1
  {
    if n == 0 then 1 else 10 * Pow10(n - 1)
  }

  /** The number `ip.fp` in decimal. */
  function PointValue(ip: string, fp: string): real
    requires AllDigits(ip) && AllDigits(fp)
  {
    DigitsValue(ip) as real + DigitsValue(fp) as real / Pow10(|fp|) as real
  }

  /** The digits of a decimal literal, with an optional point; at least one digit. */
  function Mantissa(m: string): Option<real>
  {
    match IndexOf(m, ".")
    case None => if m != [] && AllDigits(m) then Some(DigitsValue(m) as real) else None
    case Some(j) =>
      var ip, fp := m[..j], m[j + 1..];
      if |ip| + |fp| > 0 && AllDigits(ip) && AllDigits(fp)
      then Some(PointValue(ip, fp))
      else None
  }

  /** The exponent after `e` or `E`: an optional sign and at least one digit. */
  function ExponentValue(x: string): Option<int>
  {
    var neg := |x| > 0 && x[0] == '-';
    var ds := if |x| > 0 && (x[0] == '+' || x[0] == '-') then x[1..] else x;
    if ds != [] && AllDigits(ds) then Some(if neg then -(DigitsValue(ds) as int) else DigitsValue(ds)) else None
  }

  /** The position of the first `e` or `E`. */
  function ExpIndex(s: string): (r: Option<nat>)
    ensures r.Some? ==> r.value < |s| && (s[r.value] == 'e' || s[r.value] == 'E')
    ensures r.None? ==> forall k :: 0 <= k < |s| ==> s[k] != 'e' && s[k] != 'E'
  {
    if |s| == 0 then None
    else if s[0] == 'e' || s[0] == 'E' then Some(0)
    else
      match ExpIndex(s[1..])
      case None => None
      case Some(i) => Some(i + 1)
  }

  /** `m` times ten to the `e`. */
  function Scale(m: real, e: int): real {
    if e >= 0 then m * Pow10(e) as real else m / Pow10(-e) as real
  }

  /** An unsigned decimal literal: a mantissa and an optional exponent. */
  function UnsignedDecimal(b: string): Option<real>
  {
    match ExpIndex(b)
    case None => Mantissa(b)
    case Some(i) =>
      match (Mantissa(b[..i]), ExponentValue(b[i + 1..]))
      case (Some(m), Some(e)) => Some(Scale(m, e))
      case _ => None
  }

  /**
   * `Number(s)`: surrounding whitespace is ignored, a blank string is 0, and otherwise the
   * text must be a decimal literal with an optional sign, point and exponent.
   */
  function StringToNumber(s: string): (r: Option<real>)
    ensures Trim(s) == "" ==> r == Some(0.0)
  {
    var t := Trim(s);
    if t == "" then Some(0.0)
    else
      var body := if t[0] == '-' || t[0] == '+' then t[1..] else t;
      match UnsignedDecimal(body)
      case None => None
      case Some(v) => Some(if t[0] == '-' then -v else v)
  }

  /** A digit string, a point and a digit string read as the decimal number they spell (`"0.8"` is 0.8). */
  lemma DecimalString(ip: string, fp: string)
    requires AllDigits(ip) && AllDigits(fp) && |ip| + |fp| > 0
    ensures StringToNumber(ip + "." + fp) == Some(PointValue(ip, fp))
  {
    var m := ip + "." + fp;
    DecimalShape(ip, fp);
    TrimKeeps(m);
    calc {
      StringToNumber(m);
      { UnsignedString(m); }
      Mantissa(m);
      { MantissaAtPoint(m, |ip|); }
      Some(PointValue(m[..|ip|], m[|ip| + 1..]));
    }
  }

  /** An unsigned, trimmed, exponent-free string reads as its mantissa. */
  lemma UnsignedString(m: string)
    requires m != [] && Trim(m) == m && m[0] != '-' && m[0] != '+' && ExpIndex(m).None?
    ensures StringToNumber(m) == Mantissa(m)
  {
  }

  lemma MantissaAtPoint(m: string, j: nat)
    requires IndexOf(m, ".") == Some(j)
    requires AllDigits(m[..j]) && AllDigits(m[j + 1..]) && |m| > 1
    ensures Mantissa(m) == Some(PointValue(m[..j], m[j + 1..]))
  {
  }

  /** The shape facts of `ip + "." + fp` that reading it needs. */
  lemma DecimalShape(ip: string, fp: string)
    requires AllDigits(ip) && AllDigits(fp) && |ip| + |fp| > 0
    ensures var m := ip + "." + fp;
      && !IsSpace(m[0]) && !IsSpace(m[|m| - 1]) && m[0] != '-' && m[0] != '+'
      && ExpIndex(m).None? && IndexOf(m, ".") == Some(|ip|)
      && m[..|ip|] == ip && m[|ip| + 1..] == fp
  {
    var m := ip + "." + fp;
    assert m[|ip|] == '.';
    assert forall k :: 0 <= k < |m| ==> m[k] == '.' || IsDigit(m[k]);
    assert OccursAt(m, ".", |ip|);
    forall j | 0 <= j < |ip|
      ensures !OccursAt(m, ".", j)
    {
      assert m[j..j + 1][0] == m[j];
    }
  }

  /** `{ ...fields, ...extra }`: the keys of `extra` override those of `fields`. */
  function Spread(fields: map<string, JsValue>, extra: map<string, JsValue>): (r: map<string, JsValue>)
    ensures r.Keys == fields.Keys + extra.Keys
    ensures forall k :: k in extra ==> r[k] == extra[k]
    ensures forall k :: k in fields && k !in extra ==> r[k] == fields[k]
  {
    fields + extra
  }
}
