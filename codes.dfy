/** Lobby codes: the upper-casing applied to generated codes and to the code a joiner types. */
module Codes {
  import opened Types

  predicate IsLowerAscii(c: char) {
    'a' <= c <= 'z'
  }

  /** `String.prototype.toUpperCase` restricted to ASCII: `a`..`z` become `A`..`Z`, all else stays. */
  function UpperChar(c: char): (u: char)
    ensures !IsLowerAscii(u)
    ensures !IsLowerAscii(c) ==> u == c
    ensures IsLowerAscii(c) ==> 'A' <= u <= 'Z' && u as int + 32 == c as int
  {
    if IsLowerAscii(c) then (c as int - 32) as char else c
  }

  /** Upper-casing keeps the length, leaves no lower-case letter and changes nothing else. */
  function ToUpper(s: string): (u: string)
    ensures |u| == |s|
    ensures forall i :: 0 <= i < |s| ==> !IsLowerAscii(u[i])
    ensures forall i :: 0 <= i < |s| ==> if IsLowerAscii(s[i]) then u[i] as int + 32 == s[i] as int else u[i] == s[i]
  {
    seq(|s|, i requires 0 <= i < |s| => UpperChar(s[i]))
  }

  /** A code that is already upper case, such as a generated one, is found under itself. */
  lemma ToUpperIdempotent(s: string)
    ensures ToUpper(ToUpper(s)) == ToUpper(s)
  {
  }

  /** Two spellings that differ only in letter case look up the same lobby. */
  lemma {:induction false} ToUpperIgnoresCase(s: string, t: string)
    requires |s| == |t|
    requires forall i :: 0 <= i < |s| ==> s[i] == t[i] || UpperChar(s[i]) == t[i] || s[i] == UpperChar(t[i])
    ensures ToUpper(s) == ToUpper(t)
  {
    forall i | 0 <= i < |s| ensures ToUpper(s)[i] == ToUpper(t)[i] {
      var a, b := s[i], t[i];
      if a != b && UpperChar(a) == b {
        assert UpperChar(b) == b;
      } else if a != b {
        assert UpperChar(a) == a;
      }
    }
  }
}
