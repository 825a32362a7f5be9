/** Python's `str.strip()`, `str.lower()` and `str.split()` on code points. */
module Text {

  /** Python's `str.isspace()`, which is also what `strip()`, `split()` and the
      regular-expression class `\s` treat as whitespace. */
  predicate IsSpace(c: char)
  {
    var n := c as int;
    (9 <= n <= 13) || (28 <= n <= 32) || n == 0x85 || n == 0xA0 || n == 0x1680
    || (0x2000 <= n <= 0x200A) || n == 0x2028 || n == 0x2029 || n == 0x202F
    || n == 0x205F || n == 0x3000
  }

  predicate IsAsciiLower(c: char) { 'a' <= c <= 'z' }

  predicate IsAsciiLetter(c: char) { 'a' <= c <= 'z' || 'A' <= c <= 'Z' }

  /** No leading or trailing whitespace. */
  predicate Trimmed(s: string)
  {
    s != [] ==> !IsSpace(s[0]) && !IsSpace(s[|s| - 1])
  }

  /** `s.strip()`: `s` without its leading and trailing whitespace, removed one character
      at a time. */
  function Strip(s: string): (r: string)
    ensures |r| <= |s|
    ensures Trimmed(r)
    decreases |s|
  {
    if s == [] then s
    else if IsSpace(s[0]) then Strip(s[1..])
    else if IsSpace(s[|s| - 1]) then Strip(s[..|s| - 1])
    else s
  }

  /** `r` is `s` with `a` characters of whitespace cut from the front and the rest of `s`
      after `r`, all whitespace, cut from the back. */
  ghost predicate CutsSpace(s: string, a: nat, r: string)
  {
    && a + |r| <= |s| && r == s[a..a + |r|]
    && (forall i :: 0 <= i < a ==> IsSpace(s[i]))
    && (forall i :: a + |r| <= i < |s| ==> IsSpace(s[i]))
  }

  lemma CutsSpaceFront(s: string, b: nat, r: string)
    requires s != [] && IsSpace(s[0]) && CutsSpace(s[1..], b, r)
    ensures CutsSpace(s, b + 1, r)
  {
    var tail := s[1..];
    forall i | 0 <= i < b + 1 ensures IsSpace(s[i]) {
      if i > 0 { assert s[i] == tail[i - 1]; }
    }
    forall i | b + 1 + |r| <= i < |s| ensures IsSpace(s[i]) {
      assert s[i] == tail[i - 1];
    }
    assert tail[b..b + |r|] == s[b + 1..b + 1 + |r|];
  }

  lemma CutsSpaceBack(s: string, a: nat, r: string)
    requires s != [] && IsSpace(s[|s| - 1]) && CutsSpace(s[..|s| - 1], a, r)
    ensures CutsSpace(s, a, r)
  {
    var init := s[..|s| - 1];
    forall i | 0 <= i < a ensures IsSpace(s[i]) {
      assert s[i] == init[i];
    }
    forall i | a + |r| <= i < |s| ensures IsSpace(s[i]) {
      if i < |s| - 1 { assert s[i] == init[i]; }
    }
    assert init[a..a + |r|] == s[a..a + |r|];
  }

  /** `Strip(s)` is a contiguous part of `s`, starting at `a`, and everything cut off on
      either side is whitespace. */
  lemma {:induction false} StripRemovesOnlySpace(s: string) returns (a: nat)
    ensures a + |Strip(s)| <= |s| && Strip(s) == s[a..a + |Strip(s)|]
    ensures forall i :: 0 <= i < a ==> IsSpace(s[i])
    ensures forall i :: a + |Strip(s)| <= i < |s| ==> IsSpace(s[i])
    decreases |s|
  {
    if s == [] {
      a := 0;
    } else if IsSpace(s[0]) {
      var b := StripRemovesOnlySpace(s[1..]);
      CutsSpaceFront(s, b, Strip(s[1..]));
      a := b + 1;
    } else if IsSpace(s[|s| - 1]) {
      a := StripRemovesOnlySpace(s[..|s| - 1]);
      CutsSpaceBack(s, a, Strip(s[..|s| - 1]));
    } else {
      a := 0;
      assert s[0..|s|] == s;
    }
  }

  function LowerChar(c: char): (r: char)
    ensures IsAsciiLetter(c) ==> IsAsciiLower(r)
    ensures !IsAsciiLetter(c) ==> r == c
  {
    if 'A' <= c <= 'Z' then (c as int + 32) as char else c
  }

  /** `s.lower()`, restricted to the ASCII case mapping. */
  function Lower(s: string): (r: string)
    ensures |r| == |s|
    ensures forall i :: 0 <= i < |s| ==> r[i] == LowerChar(s[i])
  {
    seq(|s|, i requires 0 <= i < |s| => LowerChar(s[i]))
  }

  /** No whitespace in `w`. */
  predicate NoSpace(w: string)
  {
    forall i :: 0 <= i < |w| ==> !IsSpace(w[i])
  }

  /** The words of `s`, `cur` being the part of a word already read. */
  function Words(s: string, cur: string): (ws: seq<string>)
    ensures NoSpace(cur) ==> forall k :: 0 <= k < |ws| ==> ws[k] != [] && NoSpace(ws[k])
    decreases |s|
  {
    if s == [] then (if cur == [] then [] else [cur])
    else if IsSpace(s[0]) then (if cur == [] then [] else [cur]) + Words(s[1..], [])
    else Words(s[1..], cur + [s[0]])
  }

  /** `s.split()` with no separator: the maximal runs of non-whitespace characters. */
  function Split(s: string): (ws: seq<string>)
    ensures forall k :: 0 <= k < |ws| ==> ws[k] != [] && NoSpace(ws[k])
  {
    Words(s, [])
  }

  ghost predicate LowerOrSpace(s: string)
  {
    forall i :: 0 <= i < |s| ==> IsAsciiLower(s[i]) || IsSpace(s[i])
  }

  ghost predicate AllLower(w: string)
  {
    forall i :: 0 <= i < |w| ==> IsAsciiLower(w[i])
  }

  /** Reading a text of lower-case ASCII letters and whitespace from a lower-case partial word
      yields only lower-case words. */
  lemma {:induction false} WordsLower(s: string, cur: string)
    requires LowerOrSpace(s) && AllLower(cur)
    ensures forall k :: 0 <= k < |Words(s, cur)| ==> AllLower(Words(s, cur)[k])
    decreases |s|
  {
    if s != [] {
      assert LowerOrSpace(s[1..]) by {
        forall i | 0 <= i < |s| - 1 ensures IsAsciiLower(s[1..][i]) || IsSpace(s[1..][i]) {
          assert s[1..][i] == s[i + 1];
        }
      }
      if IsSpace(s[0]) {
        WordsLower(s[1..], []);
        var head := if cur == [] then [] else [cur];
        var ws := Words(s, cur);
        assert ws == head + Words(s[1..], []);
        forall k | 0 <= k < |ws| ensures AllLower(ws[k]) {
          if k >= |head| {
            assert ws[k] == Words(s[1..], [])[k - |head|];
          }
        }
      } else {
        assert IsAsciiLower(s[0]);
        var next := cur + [s[0]];
        assert AllLower(next) by {
          forall i | 0 <= i < |next| ensures IsAsciiLower(next[i]) {
            if i < |cur| { assert next[i] == cur[i]; }
          }
        }
        WordsLower(s[1..], next);
      }
    }
  }

  /** When `s` holds only lower-case ASCII letters and whitespace, every word of it
      holds only lower-case ASCII letters. */
  lemma SplitLowerWords(s: string)
    requires LowerOrSpace(s)
    ensures forall k :: 0 <= k < |Split(s)| ==> AllLower(Split(s)[k])
  {
    WordsLower(s, []);
  }
}
