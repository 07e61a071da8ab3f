/** The ASCII part of Python's `str.lower`, `str.strip`, `str.rstrip(c)` and
    the substring test `needle in haystack`. */
module Text {

  /** Python's `str.isspace` on ASCII: tab, line feed, vertical tab, form
      feed, carriage return (9..13), the four information separators
      (28..31) and space (32). */
  predicate IsSpace(c: char) {
    9 <= c as int <= 13 || 28 <= c as int <= 32
  }

  predicate IsUpper(c: char) {
    'A' <= c <= 'Z'
  }

  predicate AllSpace(s: string) {
    forall i :: 0 <= i < |s| ==> IsSpace(s[i])
  }

  /** ASCII `str.lower` on one character. */
  function ToLower(c: char): (r: char)
    ensures !IsUpper(r)
    ensures IsSpace(r) == IsSpace(c)
    ensures !IsUpper(c) ==> r == c
    ensures IsUpper(c) ==> r as int == c as int + 32
  {
    if IsUpper(c) then (c as int + 32) as char else c
  }

  /** ASCII `str.upper` on one character, used to state case-insensitivity. */
  function ToUpper(c: char): (r: char)
    ensures ToLower(r) == ToLower(c)
  {
    if 'a' <= c <= 'z' then (c as int - 32) as char else c
  }

  function Lower(s: string): (r: string)
    ensures |r| == |s|
    ensures forall i :: 0 <= i < |s| ==> r[i] == ToLower(s[i])
  {
    seq(|s|, i requires 0 <= i < |s| => ToLower(s[i]))
  }

  function Upper(s: string): (r: string)
    ensures |r| == |s|
    ensures forall i :: 0 <= i < |s| ==> r[i] == ToUpper(s[i])
  {
    seq(|s|, i requires 0 <= i < |s| => ToUpper(s[i]))
  }

  /** `s.lstrip()`: drops the leading whitespace. */
  function StripLeft(s: string): (r: string)
    ensures |r| <= |s| && r == s[|s| - |r|..]
    ensures AllSpace(s[..|s| - |r|])
    ensures r == [] || !IsSpace(r[0])
  {
    if |s| > 0 && IsSpace(s[0]) then
      var r := StripLeft(s[1..]);
      assert s[..|s| - |r|] == [s[0]] + s[1..][..|s| - 1 - |r|];
      r
    else s
  }

  /** `s.rstrip()`: drops the trailing whitespace. */
  function StripRight(s: string): (r: string)
    ensures |r| <= |s| && r == s[..|r|]
    ensures AllSpace(s[|r|..])
    ensures r == [] || !IsSpace(r[|r| - 1])
  {
    if |s| > 0 && IsSpace(s[|s| - 1]) then
      var r := StripRight(s[..|s| - 1]);
      assert s[|r|..] == s[..|s| - 1][|r|..] + [s[|s| - 1]];
      r
    else s
  }

  /** `s.strip()`: a slice of `s` that neither starts nor ends with
      whitespace, and is empty only when `s` is all whitespace. */
  function Strip(s: string): (r: string)
    ensures |r| <= |s|
    ensures r == [] || (!IsSpace(r[0]) && !IsSpace(r[|r| - 1]))
    ensures r == [] <==> AllSpace(s)
  {
    var l := StripLeft(s);
    var r := StripRight(l);
    assert s == s[..|s| - |l|] + l;
    assert l != [] ==> r != [] && r[0] == l[0];
    r
  }

  /** `s.rstrip(c)` for a single character `c`. */
  function TrimTrailing(s: string, c: char): (r: string)
    ensures |r| <= |s| && r == s[..|r|]
    ensures forall i :: |r| <= i < |s| ==> s[i] == c
    ensures r == [] || r[|r| - 1] != c
  {
    if |s| > 0 && s[|s| - 1] == c then TrimTrailing(s[..|s| - 1], c) else s
  }

  /** `needle` occurs in `hay` starting at index `i`. */
  ghost predicate OccursAt(needle: string, hay: string, i: int) {
    0 <= i && i + |needle| <= |hay| && hay[i..i + |needle|] == needle
  }

  /** `needle in hay`: a left-to-right scan for an occurrence. */
  function Contains(hay: string, needle: string): (r: bool)
    ensures r ==> |needle| <= |hay|
    ensures |needle| <= |hay| && hay[..|needle|] == needle ==> r
    decreases |hay|
  {
    if |needle| > |hay| then false
    else if hay[..|needle|] == needle then true
    else Contains(hay[1..], needle)
  }

  /** The scan finds an occurrence exactly when one exists. */
  lemma {:induction false} ContainsIsSubstring(hay: string, needle: string)
    ensures Contains(hay, needle) <==> exists i :: OccursAt(needle, hay, i)
    decreases |hay|
  {
    if |needle| > |hay| {
    } else if hay[..|needle|] == needle {
      assert OccursAt(needle, hay, 0);
    } else {
      ContainsIsSubstring(hay[1..], needle);
      if Contains(hay[1..], needle) {
        var j :| OccursAt(needle, hay[1..], j);
        assert hay[1..][j..j + |needle|] == hay[j + 1..j + 1 + |needle|];
        assert OccursAt(needle, hay, j + 1);
      } else {
        forall i | OccursAt(needle, hay, i) ensures false {
          assert i != 0;
          assert hay[1..][i - 1..i - 1 + |needle|] == hay[i..i + |needle|];
          assert OccursAt(needle, hay[1..], i - 1);
        }
      }
    }
  }

  /** The empty string occurs in every string. */
  lemma ContainsEmpty(hay: string)
    ensures Contains(hay, [])
  {
    assert hay[..0] == [];
  }

  /** Leading whitespace does not change `lstrip`. */
  lemma {:induction false} StripLeftPadding(p: string, s: string)
    requires AllSpace(p)
    ensures StripLeft(p + s) == StripLeft(s)
    decreases |p|
  {
    if p != [] {
      assert (p + s)[1..] == p[1..] + s;
      StripLeftPadding(p[1..], s);
    } else {
      assert p + s == s;
    }
  }

  /** Trailing whitespace does not change `rstrip`. */
  lemma {:induction false} StripRightPadding(s: string, q: string)
    requires AllSpace(q)
    ensures StripRight(s + q) == StripRight(s)
    decreases |q|
  {
    if q != [] {
      assert (s + q)[..|s + q| - 1] == s + q[..|q| - 1];
      StripRightPadding(s, q[..|q| - 1]);
    } else {
      assert s + q == s;
    }
  }

  /** `lstrip` of a string followed by whitespace keeps that whitespace,
      unless everything was whitespace. */
  lemma {:induction false} StripLeftAppend(s: string, q: string)
    requires AllSpace(q)
    ensures StripLeft(s) != [] ==> StripLeft(s + q) == StripLeft(s) + q
    ensures StripLeft(s) == [] ==> StripLeft(s + q) == []
    decreases |s|
  {
    if |s| > 0 && IsSpace(s[0]) {
      assert (s + q)[1..] == s[1..] + q;
      StripLeftAppend(s[1..], q);
    } else if |s| > 0 {
      assert (s + q)[0] == s[0];
    } else {
      assert s + q == q;
      StripLeftPadding(q, []);
      assert q + [] == q;
    }
  }

  /** `strip` ignores whitespace padding on both sides. */
  lemma StripPadding(p: string, s: string, q: string)
    requires AllSpace(p) && AllSpace(q)
    ensures Strip(p + s + q) == Strip(s)
  {
    assert p + s + q == p + (s + q);
    StripLeftPadding(p, s + q);
    assert StripLeft(p + s + q) == StripLeft(s + q);
    StripLeftAppend(s, q);
    if StripLeft(s) != [] {
      StripRightPadding(StripLeft(s), q);
      calc {
        Strip(p + s + q);
        StripRight(StripLeft(s + q));
        StripRight(StripLeft(s) + q);
        StripRight(StripLeft(s));
        Strip(s);
      }
    } else {
      calc {
        Strip(p + s + q);
        StripRight(StripLeft(s + q));
        StripRight([]);
        Strip(s);
      }
    }
  }

  /** `r` is the slice of `s` at index `i`, with only whitespace before and
      after it. */
  ghost predicate TrimmedAt(s: string, r: string, i: int) {
    && 0 <= i <= |s| - |r|
    && r == s[i..i + |r|]
    && AllSpace(s[..i])
    && AllSpace(s[i + |r|..])
  }

  /** A prefix `r` of a suffix `l` of `s` is the slice of `s` at the
      suffix's start. */
  lemma PrefixOfSuffix(s: string, l: string, r: string)
    requires |l| <= |s| && l == s[|s| - |l|..]
    requires |r| <= |l| && r == l[..|r|]
    requires AllSpace(s[..|s| - |l|]) && AllSpace(l[|r|..])
    ensures TrimmedAt(s, r, |s| - |l|)
  {
    var i := |s| - |l|;
    assert r == s[i..i + |r|];
    assert s[i + |r|..] == l[|r|..];
  }

  /** `strip` returns the slice of `s` left once its leading and trailing
      whitespace are dropped. */
  lemma StripIsSlice(s: string)
    ensures exists i :: TrimmedAt(s, Strip(s), i)
  {
    var l := StripLeft(s);
    assert Strip(s) == StripRight(l);
    PrefixOfSuffix(s, l, StripRight(l));
  }

  /** A whitespace-only string strips to the empty string. */
  lemma StripAllSpace(s: string)
    requires AllSpace(s)
    ensures Strip(s) == []
  {
    StripLeftPadding(s, []);
    assert s + [] == s;
  }

  lemma {:induction false} LowerStripLeft(s: string)
    ensures Lower(StripLeft(s)) == StripLeft(Lower(s))
    decreases |s|
  {
    if |s| > 0 && IsSpace(s[0]) {
      assert Lower(s)[1..] == Lower(s[1..]);
      LowerStripLeft(s[1..]);
    }
  }

  lemma {:induction false} LowerStripRight(s: string)
    ensures Lower(StripRight(s)) == StripRight(Lower(s))
    decreases |s|
  {
    if |s| > 0 && IsSpace(s[|s| - 1]) {
      assert Lower(s)[..|s| - 1] == Lower(s[..|s| - 1]);
      LowerStripRight(s[..|s| - 1]);
    }
  }

  /** Lower-casing and stripping commute, because case mapping never turns
      whitespace into a letter or back. */
  lemma LowerStripCommute(s: string)
    ensures Lower(Strip(s)) == Strip(Lower(s))
  {
    LowerStripLeft(s);
    LowerStripRight(StripLeft(s));
  }

  /** Re-casing a string with `upper` does not change its lower-case form. */
  lemma LowerUpper(s: string)
    ensures Lower(Upper(s)) == Lower(s)
  {
  }
}
