/** `$.JSONRPC.call` of `static/scripts/jquery.jsonrpc.js`: the request id,
    the `{id, method, params}` envelope sent as an uncached POST, and the
    classification of what comes back into calls of the success and error
    callbacks. JavaScript values are the decoded JSON values, with None
    standing for `undefined`. */
module JsonRpcClient {
  import opened Wrappers
  import opened PyText
  import opened Json
  import opened JsNumber

  /** `Math.floor(Math.random() * 10000).toString(16)`, computed once when the
      script loads; `random` is the value `Math.random()` returned. */
  function IdPrefix(random: real): (r: string)
    requires 0.0 <= random < 1.0
    ensures 1 <= |r| <= 4 && IsHex(r)
    ensures HexValue(r) < 10000
  {
    var n := (random * 10000.0).Floor;
    HexRoundTrip(n);
    HexBound(n);
    Hex(n)
  }

  /** A number below 0x10000 has at most four hexadecimal digits. */
  lemma {:induction false} HexBound(n: nat)
    ensures n < 0x10000 ==> |Hex(n)| <= 4
    ensures n < 0x1000 ==> |Hex(n)| <= 3
    ensures n < 0x100 ==> |Hex(n)| <= 2
    ensures n < 0x10 ==> |Hex(n)| <= 1
    decreases n
  {
    if n >= 16 {
      HexBound(n / 16);
    }
  }

  /** `_id`: the load-time prefix followed by `getTime().toString(16)`. */
  function RequestId(prefix: string, now: nat): (r: string)
    ensures StartsWith(r, prefix)
    ensures IsHex(r[|prefix|..]) && HexValue(r[|prefix|..]) == now
  {
    var r := prefix + Hex(now);
    assert r[..|prefix|] == prefix && r[|prefix|..] == Hex(now);
    HexRoundTrip(now);
    r
  }

  /** With one prefix, calls made at different times get different ids. */
  lemma IdsDiffer(prefix: string, t1: nat, t2: nat)
    requires t1 != t2
    ensures RequestId(prefix, t1) != RequestId(prefix, t2)
  {
  }

  /** The settings object handed to `$.ajax`; `data` is the value that
      `JSON.stringify` encodes. */
  datatype AjaxSettings = AjaxSettings(
    requestType: string, url: string, data: Json, cache: bool, processData: bool)

  /** The settings `call(uri, method, params, ...)` builds, `name` being the
      `method` argument. */
  function Request(uri: string, id: string, name: Json, params: Json): (r: AjaxSettings)
    ensures r.requestType == "POST" && r.url == uri && !r.cache && !r.processData
    ensures r.data.Obj? && r.data.fields.Keys == {"id", "method", "params"}
    ensures Field(r.data, "id") == Some(Str(id))
    ensures Field(r.data, "method") == Some(name) && Field(r.data, "params") == Some(params)
  {
    AjaxSettings("POST", uri, Obj(map["id" := Str(id), "method" := name, "params" := params]), false, false)
  }

  /** What a `throw` inside the success handler throws. */
  datatype Thrown =
    | ThrownValue(v: Json)
    | ThrownTypeError

  /** A call of one of the two callbacks, in the order they happen. */
  datatype Event = SuccessCalled(result: Option<Json>) | ErrorCalled(arg: Thrown)

  const IdMismatch: Json := Str("Incorrect ID element in the response JSON")

  /** `v.key` for a decoded value other than null: an own member of an
      object, `undefined` for everything else. */
  function Prop(v: Json, key: string): (r: Option<Json>)
    ensures r.Some? <==> v.Obj? && key in v.fields
  {
    if v.Obj? && key in v.fields then Some(v.fields[key]) else None
  }

  /** JavaScript truthiness; `undefined` is falsy. */
  predicate Truthy(v: Option<Json>) {
    match v
    case None => false
    case Some(Null) => false
    case Some(Bool(b)) => b
    case Some(Num(n)) => n != 0
    case Some(Str(s)) => s != ""
    case Some(Arr(_)) => true
    case Some(Obj(_)) => true
  }

  /** `String(v)`, as `==` converts an array or object before comparing it
      with a string. */
  function ToJsString(v: Json): string
    decreases v
  {
    match v
    case Null => "null"
    case Bool(b) => if b then "true" else "false"
    case Num(n) => IntToString(n)
    case Str(s) => s
    case Obj(_) => "[object Object]"
    case Arr(items) => JoinElements(items)
  }

  /** `Array.prototype.join(',')`, where null and undefined elements print as
      the empty text. */
  function JoinElements(items: seq<Json>): string
    decreases items
  {
    if items == [] then ""
    else
      var first := if items[0].Null? then "" else ToJsString(items[0]);
      if |items| == 1 then first else first + "," + JoinElements(items[1..])
  }

  /** `s == v` for a string `s` under JavaScript's loose equality: a
      number is compared with what ToNumber reads from `s`, a boolean as
      the number 1 or 0, an object or array through its string form, and
      null and undefined equal no string. A decoded number is the double
      its literal rounds to. */
  predicate LooseEqualsString(s: string, v: Option<Json>) {
    match v
    case None => false
    case Some(Null) => false
    case Some(Str(t)) => s == t
    case Some(Num(n)) => NumberEquals(StringToNumber(s), NumberOfInt(n))
    case Some(Bool(b)) => NumberEquals(StringToNumber(s), NumberOfInt(if b then 1 else 0))
    case Some(Arr(_)) => s == ToJsString(v.value)
    case Some(Obj(_)) => s == ToJsString(v.value)
  }

  /** An id of decimal digits below 2^53 matches a numeric reply id
      exactly when the numbers are equal. */
  lemma DigitIdComparesExactly(id: string, n: int)
    requires id != [] && IsDecimal(id) && DecimalValue(id) < TwoTo53
    requires -(TwoTo53 as int) < n < TwoTo53
    ensures LooseEqualsString(id, Some(Num(n))) <==> DecimalValue(id) == n
  {
    DecimalText(id);
    SmallIntegersCompareExactly(DecimalValue(id), n);
  }

  /** The ids `_id` takes are hexadecimal, and one whose only letter is an
      `e` between digits reads as a number in exponent form: the prefix
      `123` and the time 0x18e00000000 (March 2024) give `12318e00000000`,
      which equals the reply id 12318. */
  lemma ExponentFormId()
    ensures RequestId("123", 0x18e00000000) == "12318e00000000"
    ensures LooseEqualsString("12318e00000000", Some(Num(12318)))
  {
    IdOfTime();
    ExponentFormReads();
  }

  lemma IdOfTime()
    ensures RequestId("123", 0x18e00000000) == "12318e00000000"
  {
    HexOfTime();
    assert RequestId("123", 0x18e00000000) == "123" + Hex(0x18e00000000);
  }

  lemma HexOfTime()
    ensures Hex(0x18e00000000) == "18e00000000"
  {
    assert Hex(0x1) == "1";
    assert Hex(0x18) == "18";
    assert Hex(0x18e) == "18e";
    assert Hex(0x18e0) == "18e0";
    assert Hex(0x18e00) == "18e00";
    assert Hex(0x18e000) == "18e000";
    assert Hex(0x18e0000) == "18e0000";
    assert Hex(0x18e00000) == "18e00000";
    assert Hex(0x18e000000) == "18e000000";
    assert Hex(0x18e0000000) == "18e0000000";
  }

  lemma ExponentFormReads()
    ensures LooseEqualsString("12318e00000000", Some(Num(12318)))
  {
    assert "12318e00000000" == "12318" + "e" + "00000000";
    assert Decimal(1) == "1";
    assert Decimal(12) == "12";
    assert Decimal(123) == "123";
    assert Decimal(1231) == "1231";
    assert Decimal(12318) == "12318";
    DecimalRoundTrip(12318);
    Zeros("00000000");
    ZeroExponent("12318", "00000000");
  }

  /** A text of zeros denotes 0. */
  lemma {:induction false} Zeros(x: string)
    requires forall i :: 0 <= i < |x| ==> x[i] == '0'
    ensures IsDecimal(x) && DecimalValue(x) == 0
    decreases |x|
  {
    if x != [] {
      Zeros(x[..|x| - 1]);
    }
  }

  /** Digits followed by an exponent of zero match the number the digits
      denote. */
  lemma ZeroExponent(d: string, x: string)
    requires d != [] && IsDecimal(d) && x != [] && IsDecimal(x) && DecimalValue(x) == 0
    ensures LooseEqualsString(d + "e" + x, Some(Num(DecimalValue(d))))
  {
    ExponentText(d, x);
    assert DecimalValue(d) * Pow10(0) == DecimalValue(d);
  }

  /** What a success callback does when called: None when it returns, or
      the value it throws. */
  type SuccessCallback = Option<Json> -> Option<Thrown>

  /** The `success` handler given to `$.ajax`, applied to the decoded reply
      `obj` (None for undefined). `success` is None when no success callback
      was passed (calling it throws a TypeError); `hasError` says whether
      `error_call` is truthy. */
  function OnSuccess(id: string, obj: Option<Json>, success: Option<SuccessCallback>,
                     hasError: bool): (trace: seq<Event>)
    ensures |trace| <= 2
    ensures !hasError ==> forall e :: e in trace ==> e.SuccessCalled?
    ensures |trace| == 2 ==> trace[0].SuccessCalled? && trace[1].ErrorCalled?
  {
    var (called, thrown) :=
      if obj.None? || obj.value.Null? then (None, Some(ThrownTypeError))
      else if !LooseEqualsString(id, Prop(obj.value, "id")) then (None, Some(ThrownValue(IdMismatch)))
      else if Truthy(Prop(obj.value, "error")) then (None, Some(ThrownValue(Prop(obj.value, "error").value)))
      else
        var result := Prop(obj.value, "result");
        match success
        case None => (None, Some(ThrownTypeError))
        case Some(f) => (Some(result), f(result));
    (if called.Some? then [SuccessCalled(called.value)] else [])
    + (if thrown.Some? && hasError then [ErrorCalled(thrown.value)] else [])
  }

  /** The `error` handler given to `$.ajax`: a transport failure reaches the
      error callback if there is one and is dropped otherwise. */
  function OnError(obj: Json, hasError: bool): (trace: seq<Event>)
    ensures hasError ==> trace == [ErrorCalled(ThrownValue(obj))]
    ensures !hasError ==> trace == []
  {
    if hasError then [ErrorCalled(ThrownValue(obj))] else []
  }

  /** A reply whose id differs from the request's never reaches the success
      callback; the error callback, if any, gets the mismatch message. */
  lemma IdMismatchGoesToError(id: string, obj: Json, success: Option<SuccessCallback>, hasError: bool)
    requires !obj.Null? && !LooseEqualsString(id, Prop(obj, "id"))
    ensures OnSuccess(id, Some(obj), success, hasError) ==
      if hasError then [ErrorCalled(ThrownValue(IdMismatch))] else []
  {
  }

  /** A string id compares equal to the same string in the reply. */
  lemma SameIdMatches(id: string, obj: Json)
    requires Prop(obj, "id") == Some(Str(id))
    ensures LooseEqualsString(id, Prop(obj, "id"))
  {
  }

  /** A truthy `error` member with a matching id goes to the error callback
      unchanged, and success is not called. */
  lemma ErrorMemberPassedUnchanged(id: string, obj: Json, success: Option<SuccessCallback>, hasError: bool)
    requires !obj.Null? && LooseEqualsString(id, Prop(obj, "id"))
    requires Truthy(Prop(obj, "error"))
    ensures OnSuccess(id, Some(obj), success, hasError) ==
      if hasError then [ErrorCalled(ThrownValue(obj.fields["error"]))] else []
  {
  }

  /** Otherwise the success callback gets the `result` member as it is
      (possibly undefined or falsy); whatever it throws is handed to the
      error callback afterwards. */
  lemma ResultPassedVerbatim(id: string, obj: Json, f: SuccessCallback, hasError: bool)
    requires !obj.Null? && LooseEqualsString(id, Prop(obj, "id"))
    requires !Truthy(Prop(obj, "error"))
    ensures var trace := OnSuccess(id, Some(obj), Some(f), hasError);
      && trace[0] == SuccessCalled(Prop(obj, "result"))
      && (f(Prop(obj, "result")).None? ==> trace == [SuccessCalled(Prop(obj, "result"))])
      && (f(Prop(obj, "result")).Some? && hasError ==>
            trace == [SuccessCalled(Prop(obj, "result")), ErrorCalled(f(Prop(obj, "result")).value)])
  {
  }

  /** A reply that is null or undefined makes reading its id throw a
      TypeError, which the handler's own catch passes to the error
      callback. */
  lemma NullReplyIsTypeError(id: string, obj: Option<Json>, success: Option<SuccessCallback>, hasError: bool)
    requires obj.None? || obj.value.Null?
    ensures OnSuccess(id, obj, success, hasError) ==
      if hasError then [ErrorCalled(ThrownTypeError)] else []
  {
  }
}
