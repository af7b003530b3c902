/**
 * Decoded JSON as PHP's json_decode(..., true) produces it: scalars and ordered
 * arrays whose keys are integers or strings. Encoding and decoding are library
 * calls, so the model takes them as a codec value.
 */
module Json {
  import opened Base
  import opened OrderedMap

  datatype Key = IntKey(n: int) | StrKey(s: string)

  datatype Value =
    | Null
    | Bool(b: bool)
    | Num(n: int)
    | Str(s: string)
    | Arr(entries: OMap<Key, Value>)

  predicate IsDigit(c: char) {
    '0' <= c <= '9'
  }

  function DigitsValue(s: string): nat
    requires forall i :: 0 <= i < |s| ==> IsDigit(s[i])
  {
    if s == [] then 0
    else
      assert IsDigit(s[|s| - 1]);
      10 * DigitsValue(s[..|s| - 1]) + (s[|s| - 1] as int - '0' as int)
  }

  /** The decimal writing of n, as PHP's string conversion produces it. */
  function Decimal(n: nat): (r: string)
    ensures r != [] && forall i :: 0 <= i < |r| ==> IsDigit(r[i])
  {
    var d := ['0' + (n % 10) as char];
    if n < 10 then d else Decimal(n / 10) + d
  }

  /** `(string) $n` for an integer: its decimal writing, with '-' before a negative one. */
  function IntText(n: int): string {
    if n < 0 then "-" + Decimal(-n) else Decimal(n)
  }

  /** A string PHP turns into an integer key: "0", or an optional '-' then a non-zero digit and digits. */
  predicate CanonicalInt(s: string) {
    s == "0"
    || (|s| >= 1 && '1' <= s[0] <= '9' && forall i :: 1 <= i < |s| ==> IsDigit(s[i]))
    || (|s| >= 2 && s[0] == '-' && '1' <= s[1] <= '9' && forall i :: 2 <= i < |s| ==> IsDigit(s[i]))
  }

  /** The range of a PHP array's integer keys (64-bit zend_long). */
  const KeyMin: int := -0x8000_0000_0000_0000
  const KeyMax: int := 0x7fff_ffff_ffff_ffff

  /**
   * The key `$a[$s]` addresses: canonical decimal strings within the integer
   * key range become integer keys, every other string stays a string key.
   */
  function KeyOf(s: string): (k: Key)
    ensures k.StrKey? ==> k.s == s
    ensures k.IntKey? ==> CanonicalInt(s) && KeyMin <= k.n <= KeyMax
    ensures CanonicalInt(s) && s[0] != '-' && DigitsValue(s) <= KeyMax ==> k == IntKey(DigitsValue(s))
    ensures CanonicalInt(s) && s[0] != '-' && DigitsValue(s) > KeyMax ==> k == StrKey(s)
  {
    if CanonicalInt(s) then
      var n := if s[0] == '-' then -(DigitsValue(s[1..]) as int) else DigitsValue(s);
      if KeyMin <= n <= KeyMax then IntKey(n) else StrKey(s)
    else StrKey(s)
  }

  /** `$v[$name] ?? null`: an absent key, a null value or a non-array `$v` all give None. */
  function Field(v: Value, name: string): (r: Option<Value>)
    ensures r.Some? ==> v.Arr? && r.value != Null && Get(v.entries, KeyOf(name)) == Some(r.value)
  {
    if v.Arr? then
      match Get(v.entries, KeyOf(name))
      case Some(x) => if x == Null then None else Some(x)
      case None => None
    else None
  }

  /** A field holding a truthy string, as `!$x` tests it after `$x = $d[...] ?? null`. */
  function TextField(v: Value, name: string): (r: Option<string>)
    ensures r.Some? ==> TruthyStr(r.value) && Field(v, name) == Some(Str(r.value))
  {
    match Field(v, name)
    case Some(Str(s)) => if TruthyStr(s) then Some(s) else None
    case _ => None
  }

  /** `$d['image']['full'] ?? null`, kept when it is a truthy string. */
  function ImageFull(v: Value): (r: Option<string>)
    ensures r.Some? ==> TruthyStr(r.value)
  {
    match Field(v, "image")
    case Some(img) => TextField(img, "full")
    case None => None
  }

  /** array_values. */
  function Values(m: OMap<Key, Value>): (vs: seq<Value>)
    ensures |vs| == |m|
    ensures forall i :: 0 <= i < |m| ==> vs[i] == m[i].1
  {
    seq(|m|, i requires 0 <= i < |m| => m[i].1)
  }

  /** The values a foreach visits: those of an array, none for null or a scalar. */
  function Members(v: Option<Value>): seq<Value> {
    if v.Some? && v.value.Arr? then Values(v.value.entries) else []
  }

  /** The value PHP stores for a key when it is written back into an array (`'id' => $key`). */
  function KeyValue(k: Key): Value {
    match k
    case IntKey(n) => Num(n)
    case StrKey(s) => Str(s)
  }

  /** json_encode / json_decode(..., true); decode gives None where PHP gives null for malformed text. */
  datatype Codec = Codec(encode: Value -> Bytes, decode: Bytes -> Option<Value>)

  /** What the read-through cache relies on: every encoded document decodes back to itself. */
  ghost predicate Lossless(c: Codec) {
    forall v :: c.decode(c.encode(v)) == Some(v)
  }

  /** json_encode of an array is "[...]" or "{...}", never a falsy string. */
  ghost predicate ArraysEncodeTruthy(c: Codec) {
    forall es :: TruthyBytes(c.encode(Arr(es)))
  }

}
