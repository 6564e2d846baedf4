/** JavaScript string values as the page script sees them: a value that may be
    `null`/`undefined` (None), its truthiness, the `||` operator, how a template
    literal prints it, and `toLowerCase` restricted to ASCII letters. */
module JsText {

  /** None stands for JavaScript `null` and `undefined`. */
  datatype Option<+T> = None | Some(value: T)

  /** A string value is truthy unless it is nullish or the empty string. */
  predicate Truthy(s: Option<string>) {
    s.Some? && s.value != ""
  }

  /** `a || b` on string values: `a` when it is truthy, otherwise `b`. */
  function OrElse(a: Option<string>, b: Option<string>): (r: Option<string>)
    ensures Truthy(a) ==> r == a
    ensures !Truthy(a) ==> r == b
    ensures Truthy(r) <==> Truthy(a) || Truthy(b)
  {
    if Truthy(a) then a else b
  }

  /** How `${v}` in a template literal, or URLSearchParams.append, turns the
      value into text. None prints as `undefined`; a `null` would print as
      `null`, a difference this model does not keep. */
  function ToText(s: Option<string>): string {
    match s
    case None => "undefined"
    case Some(v) => v
  }

  function LowerChar(c: char): char {
    if 'A' <= c <= 'Z' then (c as int + 32) as char else c
  }

  /** `String.prototype.toLowerCase` for ASCII text. */
  function Lower(s: string): (r: string)
    ensures |r| == |s|
    ensures forall i :: 0 <= i < |s| ==> r[i] == LowerChar(s[i])
  {
    if |s| == 0 then "" else [LowerChar(s[0])] + Lower(s[1..])
  }

  /** Lower-casing twice is lower-casing once. */
  lemma LowerIdempotent(s: string)
    ensures Lower(Lower(s)) == Lower(s)
  {
    assert forall i :: 0 <= i < |s| ==> LowerChar(LowerChar(s[i])) == LowerChar(s[i]);
  }
}
