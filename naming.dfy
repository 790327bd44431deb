/** The `uppercaseFirst` helper that the facade installs on its store
    connection, and that the feed model uses to build getter names. */
module Naming {

  predicate IsLower(c: char)
  {
    'a' <= c <= 'z'
  }

  predicate IsUpper(c: char)
  {
    'A' <= c <= 'Z'
  }

  /** `String.prototype.toUpperCase` on one character, restricted to ASCII:
      a lower-case Latin letter becomes its capital, every other character
      is left as it is. */
  function ToUpper(c: char): (u: char)
    ensures IsLower(c) ==> IsUpper(u) && u as int == c as int - 32
    ensures !IsLower(c) ==> u == c
  {
    if IsLower(c) then (c as int - 32) as char else c
  }

  /** `str ? str[0].toUpperCase() + str.substr(1) : ''` */
  function UppercaseFirst(s: string): (r: string)
    ensures s == "" <==> r == ""
    ensures |r| == |s|
    ensures |s| > 0 ==> r[1..] == s[1..]
    ensures |s| > 0 && IsLower(s[0]) ==> IsUpper(r[0]) && r[0] as int == s[0] as int - 32
    ensures |s| > 0 && !IsLower(s[0]) ==> r == s
  {
    if s == "" then "" else [ToUpper(s[0])] + s[1..]
  }
}
