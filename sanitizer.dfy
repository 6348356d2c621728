/** Turning a layout's display name into a file stem: Python's `str.strip()`
    followed by deleting every character of the class `[<>:"/\\|?*]`. */
module Sanitizer {

  /** The characters Python's `str.isspace()` accepts, which are the ones a
      bare `str.strip()` removes from both ends. */
  predicate IsWhitespace(c: char) {
    var n := c as int;
    (0x09 <= n <= 0x0D) || (0x1C <= n <= 0x20) || n == 0x85 || n == 0xA0 ||
    n == 0x1680 || (0x2000 <= n <= 0x200A) || n == 0x2028 || n == 0x2029 ||
    n == 0x202F || n == 0x205F || n == 0x3000
  }

  /** The characters the deletion pattern matches. */
  predicate IsForbidden(c: char) {
    c == '<' || c == '>' || c == ':' || c == '"' || c == '/' ||
    c == '\\' || c == '|' || c == '?' || c == '*'
  }

  predicate NoForbidden(s: string) {
    forall i :: 0 <= i < |s| ==> !IsForbidden(s[i])
  }

  /** Python's `s.strip()`: whitespace is taken off both ends until
      neither end is whitespace. */
  function Strip(s: string): (r: string)
    ensures |r| <= |s|
    ensures r == [] || (!IsWhitespace(r[0]) && !IsWhitespace(r[|r| - 1]))
    decreases |s|
  {
    if s != [] && IsWhitespace(s[0]) then Strip(s[1..])
    else if s != [] && IsWhitespace(s[|s| - 1]) then Strip(s[..|s| - 1])
    else s
  }

  /** `s` without its leading whitespace. */
  function StripStart(s: string): (r: string)
    ensures |r| <= |s| && r == s[|s| - |r|..]
    ensures forall i :: 0 <= i < |s| - |r| ==> IsWhitespace(s[i])
    ensures r == [] || !IsWhitespace(r[0])
  {
    if s != [] && IsWhitespace(s[0]) then StripStart(s[1..]) else s
  }

  /** `s` without its trailing whitespace. */
  function StripEnd(s: string): (r: string)
    ensures |r| <= |s| && r == s[..|r|]
    ensures forall i :: |r| <= i < |s| ==> IsWhitespace(s[i])
    ensures r == [] || !IsWhitespace(r[|r| - 1])
  {
    if s != [] && IsWhitespace(s[|s| - 1]) then StripEnd(s[..|s| - 1]) else s
  }

  /** Stripping is the two one-sided passes one after the other: so the
      stripped name is a middle slice of the name with only whitespace
      around it, and nothing inside it is touched. */
  lemma {:induction false} StripIsBothEnds(s: string)
    ensures Strip(s) == StripEnd(StripStart(s))
    decreases |s|
  {
    if s != [] && IsWhitespace(s[0]) {
      StripIsBothEnds(s[1..]);
    } else if s != [] && IsWhitespace(s[|s| - 1]) {
      var t := s[..|s| - 1];
      StripIsBothEnds(t);
      assert t != [] && t[0] == s[0];
      assert StripStart(t) == t && StripStart(s) == s;
    }
  }

  /** `re.sub(r'[<>:"/\\|?*]', '', s)`: every forbidden character deleted,
      every other one kept. */
  function DeleteForbidden(s: string): (r: string)
    ensures NoForbidden(r)
  {
    if s == [] then []
    else (if IsForbidden(s[0]) then [] else [s[0]]) + DeleteForbidden(s[1..])
  }

  /** The stem the script derives from a layout's name. */
  function Sanitize(name: string): (r: string)
    ensures NoForbidden(r)
  {
    DeleteForbidden(Strip(name))
  }

  /** Deletion works character by character: it distributes over
      concatenation, which together with `DeleteOne` fixes the result
      completely, order included. */
  lemma {:induction false} DeleteAppend(a: string, b: string)
    ensures DeleteForbidden(a + b) == DeleteForbidden(a) + DeleteForbidden(b)
  {
    if a == [] {
      assert a + b == b;
    } else {
      assert (a + b)[1..] == a[1..] + b;
      DeleteAppend(a[1..], b);
    }
  }

  lemma DeleteOne(c: char)
    ensures DeleteForbidden([c]) == if IsForbidden(c) then [] else [c]
  {
  }

  /** Each character that is not forbidden keeps its number of occurrences;
      each forbidden one disappears. */
  lemma {:induction false} DeleteCounts(s: string, c: char)
    ensures multiset(DeleteForbidden(s))[c] == if IsForbidden(c) then 0 else multiset(s)[c]
  {
    if s != [] {
      DeleteCounts(s[1..], c);
      assert s == [s[0]] + s[1..];
      assert multiset(s) == multiset([s[0]]) + multiset(s[1..]);
    }
  }

  /** The sanitized name is the stripped name with exactly the forbidden
      characters taken out: every other character occurs as often as it did. */
  lemma SanitizeKeepsOthers(name: string, c: char)
    ensures c in Sanitize(name) <==> c in Strip(name) && !IsForbidden(c)
    ensures !IsForbidden(c) ==> multiset(Sanitize(name))[c] == multiset(Strip(name))[c]
  {
    DeleteCounts(Strip(name), c);
  }

  /** Deleting from a name that has nothing to delete changes nothing. */
  lemma {:induction false} DeleteClean(s: string)
    requires NoForbidden(s)
    ensures DeleteForbidden(s) == s
  {
    if s != [] {
      DeleteClean(s[1..]);
    }
  }

  /** Stripping a clean name leaves it clean. */
  lemma StripClean(s: string)
    requires NoForbidden(s)
    ensures NoForbidden(Strip(s))
  {
  }

  /** Sanitizing a second time can only strip: the strip happens before the
      deletion, so whitespace that a deleted character shielded can end up at
      either end of the first result. */
  lemma SanitizeTwice(name: string)
    ensures Sanitize(Sanitize(name)) == Strip(Sanitize(name))
  {
    StripClean(Sanitize(name));
    DeleteClean(Strip(Sanitize(name)));
  }

  /** Such a name: "? a" is sanitized to " a", whose own sanitized form is "a". */
  lemma SanitizeNotIdempotent(name: string)
    requires name == ['?', ' ', 'a']
    ensures Sanitize(name) == [' ', 'a'] && Sanitize(Sanitize(name)) == ['a']
  {
    var rest := [' ', 'a'];
    assert Strip(name) == name by {
      assert !IsWhitespace(name[0]) && !IsWhitespace(name[2]);
    }
    assert name == ['?'] + rest;
    DeleteAppend(['?'], rest);
    DeleteOne('?');
    DeleteClean(rest);
    assert Strip(rest) == ['a'] by {
      assert IsWhitespace(rest[0]) && rest[1..] == ['a'];
      assert Strip(['a']) == ['a'];
    }
    DeleteClean(['a']);
  }
}
