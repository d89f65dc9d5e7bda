/**
 * The string operations of Ruby and ActiveSupport that the importer relies on:
 * `blank?`/`presence`, `strip`, ASCII case mapping, counting and replacing a
 * character, case-insensitive substring search (a literal `/word/i` regex)
 * and `join`.
 */
module Text {
  import opened Wrappers

  /** The characters Ruby's `strip` removes at either end. */
  predicate IsStripSpace(c: char) {
    c == ' ' || c == '\t' || c == '\n' || c == '\U{000B}' || c == '\U{000C}' || c == '\r' || c == '\0'
  }

  /** `[[:space:]]`, the class ActiveSupport's `String#blank?` uses. */
  predicate IsSpace(c: char) {
    c == ' ' || c == '\t' || c == '\n' || c == '\U{000B}' || c == '\U{000C}' || c == '\r'
    || c == '\U{0085}' || c == '\U{00A0}' || c == '\U{1680}' || ('\U{2000}' <= c <= '\U{200A}')
    || c == '\U{2028}' || c == '\U{2029}' || c == '\U{202F}' || c == '\U{205F}' || c == '\U{3000}'
  }

  /** `String#blank?`: empty or whitespace only. */
  predicate Blank(s: string) {
    forall i :: 0 <= i < |s| ==> IsSpace(s[i])
  }

  /** `to_s.presence` of a string-or-nil: nil when blank. */
  function Presence(o: Option<string>): (r: Option<string>)
    ensures r.Some? <==> o.Some? && !Blank(o.value)
    ensures r.Some? ==> r == o
  {
    match o
    case None => None
    case Some(s) => if Blank(s) then None else Some(s)
  }

  function TrimStart(s: string): (r: string)
    ensures |r| <= |s| && r == s[|s| - |r|..]
    ensures r != [] ==> !IsStripSpace(r[0])
  {
    if s != [] && IsStripSpace(s[0]) then TrimStart(s[1..]) else s
  }

  function TrimEnd(s: string): (r: string)
    ensures |r| <= |s| && r == s[..|r|]
    ensures r != [] ==> !IsStripSpace(r[|r| - 1])
  {
    if s != [] && IsStripSpace(s[|s| - 1]) then TrimEnd(s[..|s| - 1]) else s
  }

  /** `String#strip`. */
  function Strip(s: string): (r: string)
    ensures |r| <= |s|
    ensures r != [] ==> !IsStripSpace(r[0]) && !IsStripSpace(r[|r| - 1])
  {
    TrimEnd(TrimStart(s))
  }

  /** `strip` only drops characters at the ends: the kept ones are `s[d..d + |Strip(s)|]` for the dropped prefix length `d`. */
  lemma StripIsSlice(s: string) returns (d: nat)
    ensures d + |Strip(s)| <= |s|
    ensures Strip(s) == s[d..d + |Strip(s)|]
  {
    d := |s| - |TrimStart(s)|;
  }

  function LowerChar(c: char): char {
    if 'A' <= c <= 'Z' then (c as int + 32) as char else c
  }

  function UpperChar(c: char): char {
    if 'a' <= c <= 'z' then (c as int - 32) as char else c
  }

  /** `downcase`, on the ASCII letters only. */
  function Downcase(s: string): (r: string)
    ensures |r| == |s| && forall i :: 0 <= i < |s| ==> r[i] == LowerChar(s[i])
  {
    seq(|s|, i requires 0 <= i < |s| => LowerChar(s[i]))
  }

  /** `upcase`, on the ASCII letters. */
  function Upcase(s: string): (r: string)
    ensures |r| == |s| && forall i :: 0 <= i < |s| ==> r[i] == UpperChar(s[i])
  {
    seq(|s|, i requires 0 <= i < |s| => UpperChar(s[i]))
  }

  /** After `upcase`, and so after `upcase.strip`, no lower-case ASCII letter is left. */
  lemma UpcaseLeavesNoLower(s: string)
    ensures forall i :: 0 <= i < |Strip(Upcase(s))| ==> !('a' <= Strip(Upcase(s))[i] <= 'z')
  {
    forall i | 0 <= i < |Strip(Upcase(s))|
      ensures !('a' <= Strip(Upcase(s))[i] <= 'z')
    {
      UpcaseStripAt(s, i);
    }
  }

  lemma UpcaseStripAt(s: string, i: nat)
    requires i < |Strip(Upcase(s))|
    ensures !('a' <= Strip(Upcase(s))[i] <= 'z')
  {
    var u := Upcase(s);
    var d := StripIsSlice(u);
    var j := d + i;
    assert Strip(u)[i] == u[j];
    assert u[j] == UpperChar(s[j]);
    UpperCharNotLower(s[j]);
  }

  lemma UpperCharNotLower(c: char)
    ensures !('a' <= UpperChar(c) <= 'z')
  {
  }

  /** `count(c)` for a single character. */
  function Count(s: string, c: char): (n: nat)
    ensures n <= |s|
    ensures n == 0 <==> forall i :: 0 <= i < |s| ==> s[i] != c
  {
    if s == [] then 0 else (if s[0] == c then 1 else 0) + Count(s[1..], c)
  }

  lemma {:induction false} CountAppend(a: string, b: string, c: char)
    ensures Count(a + b, c) == Count(a, c) + Count(b, c)
  {
    if a == [] {
      assert a + b == b;
    } else {
      assert (a + b)[1..] == a[1..] + b;
      CountAppend(a[1..], b, c);
    }
  }

  /** `gsub(from, to)` for single characters. */
  function ReplaceAll(s: string, from: char, to: char): (r: string)
    ensures |r| == |s|
    ensures forall i :: 0 <= i < |s| ==> r[i] == if s[i] == from then to else s[i]
  {
    seq(|s|, i requires 0 <= i < |s| => if s[i] == from then to else s[i])
  }

  predicate Contains(s: string, c: char) {
    exists i :: 0 <= i < |s| && s[i] == c
  }

  /** `s.match?(/word/i)` for a literal word: a case-insensitive substring test. */
  predicate ContainsCI(s: string, word: string) {
    exists i | 0 <= i <= |s| :: MatchesAtCI(s, word, i)
  }

  /** `word` occurs in `s` at index `i`, ignoring ASCII case. */
  predicate MatchesAtCI(s: string, word: string, i: int) {
    0 <= i && i + |word| <= |s| && Downcase(s[i..i + |word|]) == Downcase(word)
  }

  /** `Array#join(sep)`. */
  function Join(parts: seq<string>, sep: string): string {
    if parts == [] then ""
    else if |parts| == 1 then parts[0]
    else parts[0] + sep + Join(parts[1..], sep)
  }
}
