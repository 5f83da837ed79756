/**
 * The rule that both name prompts apply (manifest names and proxy-schema
 * names): a name is non-empty and made of ASCII letters, digits, '_' and '-'.
 */
module NameRules {
  import opened Common

  /** `c.is_ascii_alphanumeric() || c == '_' || c == '-'`. */
  predicate IsNameChar(c: char) {
    || ('a' <= c <= 'z')
    || ('A' <= c <= 'Z')
    || ('0' <= c <= '9')
    || c == '_'
    || c == '-'
  }

  /** `chars().all(...)`, one character at a time. */
  function AllNameChars(s: string): (b: bool)
    ensures b <==> forall i :: 0 <= i < |s| ==> IsNameChar(s[i])
    decreases |s|
  {
    if s == [] then true
    else IsNameChar(s[0]) && AllNameChars(s[1..])
  }

  /**
   * The parser of both name prompts: an empty input, or one holding a character
   * other than an ASCII letter, digit, '_' or '-', is refused; any other input is
   * taken as typed.
   */
  function ParseName(input: string): (r: Option<string>)
    ensures r.Some? <==> |input| > 0 && forall i :: 0 <= i < |input| ==> IsNameChar(input[i])
    ensures r.Some? ==> r.value == input
  {
    if input == [] then None
    else if !AllNameChars(input) then None
    else Some(input)
  }

  /** A name the parser accepts. */
  predicate IsValidName(s: string) {
    ParseName(s).Some?
  }

  /**
   * What a name prompt returns when the operator types `attempts` one after the
   * other: the prompt rejects an answer its parser refuses and asks again, so the
   * first accepted answer wins; `None` when every answer given was refused.
   */
  function AcceptedName(attempts: seq<string>): (r: Option<string>)
    ensures r.Some? ==> ParseName(r.value) == r
    ensures r.Some? <==> exists i :: 0 <= i < |attempts| && IsValidName(attempts[i])
    ensures r.Some? ==> IsValidName(r.value)
    ensures r.Some? ==> exists i :: 0 <= i < |attempts| && attempts[i] == r.value
                          && forall j :: 0 <= j < i ==> !IsValidName(attempts[j])
  {
    match FirstWhere(attempts, IsValidName)
    case None => None
    case Some(i) => Some(attempts[i])
  }
}
