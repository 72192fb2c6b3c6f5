/** The JSON values a request body carries, with JavaScript's truthiness and
    `typeof` as the routes test them. */
module Json {
  import BlogModel

  datatype Json =
    | Undefined
    | Null
    | Bool(b: bool)
    | Num(n: int)
    | Str(s: string)
    | Arr(items: seq<Json>)
    | Obj(members: seq<(string, Json)>)

  /** JavaScript truthiness (numbers are integers here, so there is no NaN):
      the falsy values are exactly undefined, null, false, 0 and "". */
  predicate Truthy(v: Json): (r: bool)
    ensures !r <==> v == Undefined || v == Null || v == Bool(false) || v == Num(0) || v == Str("")
  {
    match v
    case Undefined => false
    case Null => false
    case Bool(b) => b
    case Num(n) => n != 0
    case Str(s) => BlogModel.TruthyText(BlogModel.Some(s))
    case Arr(_) => true
    case Obj(_) => true
  }

  /** The answer of the `typeof` operator. */
  function Typeof(v: Json): string {
    match v
    case Undefined => "undefined"
    case Null => "object"
    case Bool(_) => "boolean"
    case Num(_) => "number"
    case Str(_) => "string"
    case Arr(_) => "object"
    case Obj(_) => "object"
  }

  /** `typeof v === "object"`: true of null, arrays and objects. */
  predicate TypeofObject(v: Json): (r: bool)
    ensures r <==> v.Null? || v.Arr? || v.Obj?
  {
    Typeof(v) == "object"
  }

  /** The number a string of decimal digits denotes, most significant first. */
  function DecimalValue(s: string): nat
    requires forall i :: 0 <= i < |s| ==> '0' <= s[i] <= '9'
  {
    if s == [] then 0 else 10 * DecimalValue(s[..|s| - 1]) + (s[|s| - 1] - '0') as nat
  }

  /** The decimal numeral of `n`, as an array index becomes a property name:
      digits only, reading back as `n`, with no leading zero. */
  function NatToString(n: nat): (r: string)
    ensures |r| >= 1
    ensures forall i :: 0 <= i < |r| ==> '0' <= r[i] <= '9'
    ensures DecimalValue(r) == n
    ensures |r| > 1 ==> r[0] != '0'
    decreases n
  {
    var d := ['0' + (n % 10) as char];
    if n < 10 then d
    else
      var r := NatToString(n / 10) + d;
      assert r[..|r| - 1] == NatToString(n / 10);
      r
  }

  /** Distinct indices give distinct property names. */
  lemma NatToStringInjective(m: nat, n: nat)
    requires NatToString(m) == NatToString(n)
    ensures m == n
  {
  }

  /** `Object.entries(v)` for an array or an object. */
  function Entries(v: Json): (r: seq<(string, Json)>)
    requires v.Arr? || v.Obj?
    ensures v.Obj? ==> r == v.members
    ensures v.Arr? ==> |r| == |v.items| && forall i :: 0 <= i < |r| ==> r[i] == (NatToString(i), v.items[i])
  {
    if v.Obj? then v.members
    else seq(|v.items|, i requires 0 <= i < |v.items| => (NatToString(i), v.items[i]))
  }
}
