/**
 * Parsed JSON documents, as `json.load` hands them to the validator, and the
 * string helper that models Python's `in` on two strings.
 */
module JsonValues {

  /** A JSON value. Objects are dictionaries keyed by string (a repeated key keeps its last value). */
  datatype Json =
    | JNull
    | JBool(b: bool)
    | JNum(n: real)
    | JStr(s: string)
    | JArr(items: seq<Json>)
    | JObj(fields: map<string, Json>)

  /**
   * The outcome of opening and parsing a file: a document; one of the failures
   * the validator catches (a JSON decoding error, any other ValueError, an
   * IOError); or a nesting so deep that the decoder exceeds the interpreter's
   * recursion limit, whose RecursionError the validator does not catch.
   */
  datatype Parsed = Doc(value: Json) | Unreadable | TooDeep

  /** Python's `t in s` for two strings: `t` occurs in `s` as a contiguous substring. */
  function IsSubstring(t: string, s: string): bool
    decreases |s|
  {
    t <= s || (|s| > 0 && IsSubstring(t, s[1..]))
  }

  /** `IsSubstring` finds exactly the occurrences at some offset of `s`. */
  lemma {:induction false} IsSubstringIff(t: string, s: string)
    ensures IsSubstring(t, s) <==> exists i :: 0 <= i <= |s| && t <= s[i..]
    decreases |s|
  {
    if t <= s {
      assert s[0..] == s;
    } else if |s| > 0 {
      IsSubstringIff(t, s[1..]);
      forall i | 1 <= i <= |s| ensures s[1..][i - 1..] == s[i..] { }
    }
  }
}
