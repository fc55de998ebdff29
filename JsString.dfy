/** The two string operations the search box relies on: `toLowerCase()`
    (ASCII letters only) and `includes()` (substring test). */
module JsString {
  import opened JsNumber

  predicate IsUpper(c: char) {
    'A' <= c <= 'Z'
  }

  /** One character lower-cased: 'A'..'Z' become the matching 'a'..'z'. */
  function LowerChar(c: char): (r: char)
    ensures !IsUpper(r)
    ensures !IsUpper(c) ==> r == c
    ensures IsUpper(c) ==> 'a' <= r <= 'z' && r as int - 'a' as int == c as int - 'A' as int
  {
    if IsUpper(c) then ((c as int) + 32) as char else c
  }

  /** `s.toLowerCase()`: same length, every letter lower-cased, nothing else touched. */
  function ToLowerCase(s: string): (r: string)
    ensures |r| == |s|
    ensures forall i :: 0 <= i < |r| ==> !IsUpper(r[i])
    ensures forall i :: 0 <= i < |s| && !IsUpper(s[i]) ==> r[i] == s[i]
    ensures forall i :: 0 <= i < |s| && IsUpper(s[i]) ==>
      'a' <= r[i] <= 'z' && r[i] as int - 'a' as int == s[i] as int - 'A' as int
  {
    seq(|s|, i requires 0 <= i < |s| => LowerChar(s[i]))
  }

  /** Lower-casing twice is lower-casing once. */
  lemma ToLowerCaseIdempotent(s: string)
    ensures ToLowerCase(ToLowerCase(s)) == ToLowerCase(s)
  {
    var once := ToLowerCase(s);
    var twice := ToLowerCase(once);
    forall i | 0 <= i < |s| ensures twice[i] == once[i] {
      assert !IsUpper(once[i]);
    }
  }

  /** `a` and `b` differ at most in the case of ASCII letters. */
  ghost predicate SameUpToCase(a: string, b: string) {
    && |a| == |b|
    && forall i :: 0 <= i < |a| ==>
         || a[i] == b[i]
         || (IsUpper(a[i]) && b[i] as int == a[i] as int + 32)
         || (IsUpper(b[i]) && a[i] as int == b[i] as int + 32)
  }

  /** Strings that differ only in letter case lower-case to the same string. */
  lemma ToLowerCaseOfSameUpToCase(a: string, b: string)
    requires SameUpToCase(a, b)
    ensures ToLowerCase(a) == ToLowerCase(b)
  {
    var la, lb := ToLowerCase(a), ToLowerCase(b);
    forall i | 0 <= i < |a| ensures la[i] == lb[i] {
      if IsUpper(a[i]) && b[i] as int == a[i] as int + 32 {
        assert !IsUpper(b[i]);
      } else if IsUpper(b[i]) && a[i] as int == b[i] as int + 32 {
        assert !IsUpper(a[i]);
      }
    }
  }

  /** Lower-casing leaves the decimal text of a number as it is. */
  lemma ToLowerCaseOfDigits(s: string)
    requires AllDigits(s)
    ensures ToLowerCase(s) == s
  {
    var r := ToLowerCase(s);
    forall i | 0 <= i < |s| ensures r[i] == s[i] {
      assert IsDigit(s[i]);
    }
  }

  /** `haystack.includes(needle)`: tries each starting position in turn.
      A prefix (the empty needle included) is found; a needle longer than
      the haystack never is. */
  function Includes(haystack: string, needle: string): (found: bool)
    ensures needle <= haystack ==> found
    ensures |needle| > |haystack| ==> !found
    decreases |haystack|
  {
    if needle <= haystack then true
    else if |haystack| == 0 then false
    else Includes(haystack[1..], needle)
  }

  /** `needle` appears in `haystack` starting at position `i`. */
  ghost predicate OccursAt(haystack: string, needle: string, i: int) {
    0 <= i && i + |needle| <= |haystack| && haystack[i..i + |needle|] == needle
  }

  ghost predicate IsSubstring(needle: string, haystack: string) {
    exists i :: OccursAt(haystack, needle, i)
  }

  /** The scan finds the needle exactly when it occurs somewhere. */
  lemma {:induction false} IncludesIsSubstring(haystack: string, needle: string)
    ensures Includes(haystack, needle) <==> IsSubstring(needle, haystack)
    decreases |haystack|
  {
    if needle <= haystack {
      assert OccursAt(haystack, needle, 0);
    } else if |haystack| == 0 {
      assert !IsSubstring(needle, haystack);
    } else {
      var tail := haystack[1..];
      IncludesIsSubstring(tail, needle);
      if IsSubstring(needle, haystack) {
        var i :| OccursAt(haystack, needle, i);
        assert tail[i - 1..i - 1 + |needle|] == haystack[i..i + |needle|];
        assert OccursAt(tail, needle, i - 1);
      }
      if IsSubstring(needle, tail) {
        var i :| OccursAt(tail, needle, i);
        assert tail[i..i + |needle|] == haystack[i + 1..i + 1 + |needle|];
        assert OccursAt(haystack, needle, i + 1);
      }
    }
  }
}
