/** The input check of `POST /blogs/search`: the query must be a string that
    is not empty once `String.prototype.trim` has removed surrounding white
    space. The fuzzy ranking itself is not modelled. */
module Search {
  import opened BlogModel
  import opened Json

  /** The characters `trim` removes: ECMAScript WhiteSpace and LineTerminator. */
  predicate IsWhiteSpace(c: char) {
    || c == '\t' || c == '\n' || c == '\U{000B}' || c == '\U{000C}' || c == '\r'
    || c == ' ' || c == '\U{00A0}' || c == '\U{1680}'
    || ('\U{2000}' <= c <= '\U{200A}')
    || c == '\U{2028}' || c == '\U{2029}' || c == '\U{202F}' || c == '\U{205F}'
    || c == '\U{3000}' || c == '\U{FEFF}'
  }

  predicate AllWhiteSpace(s: string) {
    forall i :: 0 <= i < |s| ==> IsWhiteSpace(s[i])
  }

  /** The position of the first character that is not white space, or `|s|`. */
  function TextStart(s: string): (k: nat)
    ensures k <= |s|
    ensures forall i :: 0 <= i < k ==> IsWhiteSpace(s[i])
    ensures k < |s| ==> !IsWhiteSpace(s[k])
    decreases |s|
  {
    if s == [] || !IsWhiteSpace(s[0]) then 0 else 1 + TextStart(s[1..])
  }

  /** The position just after the last character that is not white space, or 0. */
  function TextEnd(s: string): (k: nat)
    ensures k <= |s|
    ensures forall i :: k <= i < |s| ==> IsWhiteSpace(s[i])
    ensures k > 0 ==> !IsWhiteSpace(s[k - 1])
    decreases |s|
  {
    if s == [] || !IsWhiteSpace(s[|s| - 1]) then |s| else TextEnd(s[..|s| - 1])
  }

  /** `String.prototype.trim`: `s` without its leading and trailing white
      space, so empty exactly when `s` is all white space, and otherwise
      starting and ending with a character that is not. */
  function Trim(s: string): (r: string)
    ensures r == [] <==> AllWhiteSpace(s)
    ensures r != [] ==> !IsWhiteSpace(r[0]) && !IsWhiteSpace(r[|r| - 1])
    ensures |r| <= |s|
    ensures exists a, b :: 0 <= a <= b <= |s| && r == s[a..b] && AllWhiteSpace(s[..a]) && AllWhiteSpace(s[b..])
  {
    var a := TextStart(s);
    var b := TextEnd(s);
    if b <= a then
      assert AllWhiteSpace(s);
      assert s[0..0] == [] && s[..0] == [] && s[0..] == s;
      []
    else
      assert !AllWhiteSpace(s) by { assert !IsWhiteSpace(s[a]); }
      assert AllWhiteSpace(s[..a]) && AllWhiteSpace(s[b..]);
      s[a..b]
  }

  /** The route's check: refused with 400 unless the query is a string with a
      character that is not white space; the accepted query goes to the
      search as it was sent. */
  function CheckQuery(query: Json): (r: Response<string>)
    ensures r.Fail? <==> !(query.Str? && exists i :: 0 <= i < |query.s| && !IsWhiteSpace(query.s[i]))
    ensures r.Fail? ==> r.status == 400 && r.error == "Search query is required"
    ensures r.Reply? ==> r.status == 200 && r.body == query.s
  {
    if !Truthy(query) || !query.Str? || |Trim(query.s)| == 0 then
      Fail(400, "Search query is required")
    else
      Reply(200, query.s)
  }
}
