/**
  Values shared by every part of the model: optional values, results of
  calls that may throw, the outcome of an abstract backend call, a flat
  JSON value, JavaScript truthiness, the `\s` character class, decimal
  rendering of numbers and the byte length of a string.
*/
module Common {

  datatype Option<T> = None | Some(value: T) {
    function GetOr(default: T): T {
      if Some? then value else default
    }
  }

  /** The value of a call that either returns or throws an error with a message. */
  datatype Result<T> = Ok(value: T) | Err(message: string)

  /** The answer of an abstract external call (a database write, a mail send, a storage removal). */
  datatype Outcome = Success | Failure(message: string)

  /** A JSON value as the code reads it: strings, booleans, numbers and null;
      objects and arrays are kept opaque. */
  datatype JsonValue = JString(str: string) | JBool(b: bool) | JNumber(num: real) | JNull | JComposite

  /** A parsed JSON object, by member name. */
  type JsonObject = map<string, JsonValue>

  /** The result of `JSON.parse` / `response.json()`: a value, or the message of the thrown SyntaxError. */
  datatype Parse<T> = Parsed(value: T) | Unparsable(message: string)

  /** The result of `fetch`: a network error (the promise rejects) or an HTTP answer whose body,
      when the code calls `.json()`, parses as given. */
  datatype Fetched = Unreachable(message: string) | Answered(ok: bool, status: nat, body: Parse<JsonObject>)

  /** An HTTP response produced by a route: status and JSON body. */
  datatype Reply = Reply(status: nat, body: JsonObject)

  function ErrorReply(status: nat, message: string): (r: Reply)
    ensures r.status == status && StringMember(r.body, "error") == Some(message)
  {
    Reply(status, map["error" := JString(message)])
  }

  /** The acknowledgement both webhook routes send: 200 `{ received: true }`. */
  const Received := Reply(200, map["received" := JBool(true)])

  /** JavaScript truthiness of a JSON value (JSON has no NaN). */
  predicate Truthy(v: JsonValue) {
    match v
    case JString(s) => s != ""
    case JBool(b) => b
    case JNumber(n) => n != 0.0
    case JNull => false
    case JComposite => true
  }

  /** Truthiness of an optional member: an absent member is `undefined`, which is falsy. */
  predicate TruthyMember(obj: JsonObject, key: string) {
    key in obj && Truthy(obj[key])
  }

  /** A string member, or None when it is absent or not a string. */
  function StringMember(obj: JsonObject, key: string): (r: Option<string>)
    ensures r.Some? <==> key in obj && obj[key].JString?
    ensures r.Some? ==> obj[key] == JString(r.value)
  {
    if key in obj && obj[key].JString? then Some(obj[key].str) else None
  }

  /** Truthiness of an optional string (`undefined` and "" are falsy). */
  predicate Present(s: Option<string>) {
    s.Some? && s.value != ""
  }

  /** `s || fallback` for an optional string. */
  function OrElse(s: Option<string>, fallback: string): (r: string)
    ensures Present(s) ==> r == s.value
    ensures !Present(s) ==> r == fallback
  {
    if Present(s) then s.value else fallback
  }

  /** The characters matched by `\s` in an ECMAScript regular expression (WhiteSpace and
      LineTerminator); `String.prototype.trim` removes exactly the same set. */
  predicate IsWhitespace(c: char) {
    var n := c as int;
    n == 0x09 || n == 0x0A || n == 0x0B || n == 0x0C || n == 0x0D || n == 0x20
    || n == 0xA0 || n == 0x1680 || (0x2000 <= n <= 0x200A)
    || n == 0x2028 || n == 0x2029 || n == 0x202F || n == 0x205F || n == 0x3000 || n == 0xFEFF
  }

  /** The position of the first occurrence of `c` in `s`. */
  function FirstIndex(s: string, c: char): (i: nat)
    requires c in s
    ensures i < |s| && s[i] == c
    ensures forall k :: 0 <= k < i ==> s[k] != c
  {
    if s[0] == c then 0 else 1 + FirstIndex(s[1..], c)
  }

  function DigitChar(d: nat): (c: char)
    requires d < 10
    ensures '0' <= c <= '9' && (c as int) - ('0' as int) == d
  {
    (('0' as int) + d) as char
  }

  predicate IsDigit(c: char) {
    '0' <= c <= '9'
  }

  /** The decimal rendering of a natural number, as a template literal prints it. */
  function NatToString(n: nat): (s: string)
    ensures |s| >= 1
    ensures forall i :: 0 <= i < |s| ==> IsDigit(s[i])
    ensures |s| > 1 ==> s[0] != '0'
  {
    if n < 10 then [DigitChar(n)] else NatToString(n / 10) + [DigitChar(n % 10)]
  }

  /** The value of a string of decimal digits. */
  function DecimalValue(s: string): nat
    requires forall i :: 0 <= i < |s| ==> IsDigit(s[i])
  {
    if s == [] then 0
    else
      assert IsDigit(s[|s| - 1]);
      10 * DecimalValue(s[..|s| - 1]) + ((s[|s| - 1] as int) - ('0' as int))
  }

  lemma {:induction false} DecimalValueOfNatToString(n: nat)
    ensures DecimalValue(NatToString(n)) == n
  {
    var s := NatToString(n);
    if n >= 10 {
      DecimalValueOfNatToString(n / 10);
      assert s[..|s| - 1] == NatToString(n / 10);
    }
  }

  /** Distinct numbers render differently. */
  lemma NatToStringInjective(a: nat, b: nat)
    ensures NatToString(a) == NatToString(b) ==> a == b
  {
    DecimalValueOfNatToString(a);
    DecimalValueOfNatToString(b);
  }

  /** The number of bytes of the UTF-8 encoding of a character (what `Buffer.from` produces). */
  function Utf8Width(c: char): (w: nat)
    ensures 1 <= w <= 4
  {
    var n := c as int;
    if n < 0x80 then 1 else if n < 0x800 then 2 else if n < 0x10000 then 3 else 4
  }

  function Utf8Length(s: string): (n: nat)
    ensures |s| <= n <= 4 * |s|
  {
    if s == [] then 0 else Utf8Width(s[0]) + Utf8Length(s[1..])
  }

  /** The `length` of a JavaScript string: UTF-16 code units. */
  function Utf16Length(s: string): (n: nat)
    ensures |s| <= n <= 2 * |s|
  {
    if s == [] then 0 else (if (s[0] as int) < 0x10000 then 1 else 2) + Utf16Length(s[1..])
  }

  /** A string of ASCII characters has as many UTF-8 bytes as characters. */
  lemma {:induction false} AsciiUtf8Length(s: string)
    requires forall i :: 0 <= i < |s| ==> (s[i] as int) < 0x80
    ensures Utf8Length(s) == |s|
  {
    if s != [] {
      AsciiUtf8Length(s[1..]);
    }
  }
}
