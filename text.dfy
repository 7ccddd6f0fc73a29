/**
 * The two string operations the bot relies on: Python's `str.lower()` and the
 * substring test `needle in haystack`.
 */
module Text {

  /** Upper-case letters whose lower-case form the model knows: Basic Latin
      A-Z and the Cyrillic capitals U+0400..U+042F (Ѐ..Џ and А..Я). */
  predicate IsUpper(c: char) {
    'A' <= c <= 'Z' || '\U{0400}' <= c <= '\U{042F}'
  }

  /** Lower-case form of one character; every other character is kept. */
  function LowerChar(c: char): (d: char)
    ensures !IsUpper(d)
    ensures !IsUpper(c) ==> d == c
  {
    if 'A' <= c <= 'Z' then (c as int + 0x20) as char
    else if '\U{0410}' <= c <= '\U{042F}' then (c as int + 0x20) as char
    else if '\U{0400}' <= c <= '\U{040F}' then (c as int + 0x50) as char
    else c
  }

  /** `s.lower()`: every character is lower-cased in place. */
  function Lower(s: string): (r: string)
    ensures |r| == |s|
    ensures forall i :: 0 <= i < |s| ==> r[i] == LowerChar(s[i])
  {
    if s == [] then [] else [LowerChar(s[0])] + Lower(s[1..])
  }

  predicate IsLower(s: string) {
    forall i :: 0 <= i < |s| ==> !IsUpper(s[i])
  }

  /** Lowering yields lower-case text, and lower-case text is its own lower-case
      form, so lowering twice is lowering once. */
  lemma LowerIsLower(s: string)
    ensures IsLower(Lower(s))
    ensures IsLower(s) ==> Lower(s) == s
    ensures Lower(Lower(s)) == Lower(s)
  {
    var r := Lower(s);
    assert |Lower(r)| == |r|;
    forall i | 0 <= i < |r| ensures Lower(r)[i] == r[i] {
      assert !IsUpper(r[i]);
    }
  }

  /** Python's `needle in haystack` on strings: some suffix of the haystack
      starts with the needle. The empty string is in every string, and a
      needle in a haystack is no longer than it. */
  predicate IsSubstring(needle: string, haystack: string)
    ensures needle == [] ==> IsSubstring(needle, haystack)
    ensures IsSubstring(needle, haystack) ==> |needle| <= |haystack|
    decreases |haystack|
  {
    needle <= haystack || (haystack != [] && IsSubstring(needle, haystack[1..]))
  }

  /** The position-based reading of `needle in haystack`: both directions. */
  lemma {:induction false} SubstringAt(needle: string, haystack: string)
    ensures IsSubstring(needle, haystack) <==>
            exists i :: 0 <= i <= |haystack| && needle <= haystack[i..]
    decreases |haystack|
  {
    if needle <= haystack {
      assert haystack[0..] == haystack;
    } else if haystack == [] {
      forall i | 0 <= i <= |haystack| ensures !(needle <= haystack[i..]) {
        assert haystack[i..] == haystack;
      }
    } else {
      var tail := haystack[1..];
      SubstringAt(needle, tail);
      if IsSubstring(needle, tail) {
        var i :| 0 <= i <= |tail| && needle <= tail[i..];
        assert tail[i..] == haystack[i + 1..];
      } else {
        forall i | 0 <= i <= |haystack| ensures !(needle <= haystack[i..]) {
          if i > 0 {
            assert haystack[i..] == tail[i - 1..];
          } else {
            assert haystack[i..] == haystack;
          }
        }
      }
    }
  }
}
