/**
 * Name normalisation used by the name-based lookups: Python's `s.strip().lower()`.
 * `strip` removes the characters Python's `str.isspace` accepts; `lower` folds
 * the ASCII letters A-Z only.
 */
module Names {

  /** The characters Python's `str.strip()` (no argument) removes. */
  predicate IsSpace(c: char) {
    var n := c as int;
    (9 <= n <= 13) || (28 <= n <= 32) || n == 0x85 || n == 0xA0 || n == 0x1680
    || (0x2000 <= n <= 0x200A) || n == 0x2028 || n == 0x2029 || n == 0x202F
    || n == 0x205F || n == 0x3000
  }

  predicate AllSpace(s: string) {
    forall i :: 0 <= i < |s| ==> IsSpace(s[i])
  }

  /** `s.lstrip()`. */
  function TrimLeft(s: string): string {
    if s != [] && IsSpace(s[0]) then TrimLeft(s[1..]) else s
  }

  /** `s.rstrip()`. */
  function TrimRight(s: string): string {
    if s != [] && IsSpace(s[|s| - 1]) then TrimRight(s[..|s| - 1]) else s
  }

  /** `lstrip` drops the leading whitespace and nothing else: what it keeps is
      a suffix of the input that does not start with whitespace, and what it
      drops is all whitespace. */
  lemma {:induction false} TrimLeftShape(s: string)
    ensures var r := TrimLeft(s);
      |r| <= |s| && r == s[|s| - |r|..] && (r == [] || !IsSpace(r[0]))
      && AllSpace(s[..|s| - |r|])
    decreases |s|
  {
    if s != [] && IsSpace(s[0]) {
      TrimLeftShape(s[1..]);
      var r := TrimLeft(s);
      var dropped, rest := s[..|s| - |r|], s[1..][..|s| - 1 - |r|];
      forall i | 0 <= i < |dropped| ensures IsSpace(dropped[i]) {
        if i > 0 {
          assert dropped[i] == rest[i - 1];
        }
      }
    }
  }

  /** `rstrip` drops the trailing whitespace and nothing else. */
  lemma {:induction false} TrimRightShape(s: string)
    ensures var r := TrimRight(s);
      |r| <= |s| && r == s[..|r|] && (r == [] || !IsSpace(r[|r| - 1]))
      && AllSpace(s[|r|..])
    decreases |s|
  {
    if s != [] && IsSpace(s[|s| - 1]) {
      var p := s[..|s| - 1];
      TrimRightShape(p);
      var r := TrimRight(s);
      var dropped, rest := s[|r|..], p[|r|..];
      forall i | 0 <= i < |dropped| ensures IsSpace(dropped[i]) {
        if i < |rest| {
          assert dropped[i] == rest[i];
        }
      }
    }
  }

  /** `s.strip()`. */
  function Strip(s: string): string {
    TrimRight(TrimLeft(s))
  }

  function LowerChar(c: char): char {
    if 'A' <= c <= 'Z' then (c as int + 32) as char else c
  }

  /** `s.lower()` restricted to ASCII letters. */
  function Lower(s: string): (r: string)
    ensures |r| == |s|
    ensures forall i :: 0 <= i < |s| ==> r[i] == LowerChar(s[i])
  {
    seq(|s|, i requires 0 <= i < |s| => LowerChar(s[i]))
  }

  /** The key two names are compared by: `s.strip().lower()`. It is no
      longer than the name, holds no upper-case ASCII letter, and is empty
      exactly when the name is all whitespace. */
  function Normalize(s: string): (r: string)
    ensures |r| <= |s|
    ensures forall i :: 0 <= i < |r| ==> !('A' <= r[i] <= 'Z')
    ensures r == [] <==> AllSpace(s)
  {
    StripShape(s);
    TrimLeftShape(s);
    TrimRightShape(TrimLeft(s));
    Lower(Strip(s))
  }

  /** The result of `strip` neither starts nor ends with whitespace, and is
      empty exactly when the input is all whitespace. */
  lemma StripShape(s: string)
    ensures var r := Strip(s);
      (r == [] || (!IsSpace(r[0]) && !IsSpace(r[|r| - 1])))
      && (r == [] <==> AllSpace(s))
  {
    var l := TrimLeft(s);
    TrimLeftShape(s);
    var r := TrimRight(l);
    TrimRightShape(l);
    if r == [] {
      assert l[|r|..] == l;
      assert l == [];
      assert s[..|s| - |l|] == s;
    } else {
      assert r[0] == l[0] == s[|s| - |l|];
    }
  }

  /** Whitespace is left alone by `lower`. */
  lemma LowerCharKeepsSpace(c: char)
    ensures IsSpace(LowerChar(c)) <==> IsSpace(c)
  {}

  lemma {:induction false} TrimLeftLower(s: string)
    ensures TrimLeft(Lower(s)) == Lower(TrimLeft(s))
    decreases |s|
  {
    if s != [] {
      LowerCharKeepsSpace(s[0]);
      if IsSpace(s[0]) {
        assert Lower(s)[1..] == Lower(s[1..]);
        TrimLeftLower(s[1..]);
      }
    }
  }

  lemma {:induction false} TrimRightLower(s: string)
    ensures TrimRight(Lower(s)) == Lower(TrimRight(s))
    decreases |s|
  {
    if s != [] {
      LowerCharKeepsSpace(s[|s| - 1]);
      if IsSpace(s[|s| - 1]) {
        assert Lower(s)[..|s| - 1] == Lower(s[..|s| - 1]);
        TrimRightLower(s[..|s| - 1]);
      }
    }
  }

  /** Stripping and lower-casing commute, so the order Python applies them in
      does not matter. */
  lemma StripLowerCommute(s: string)
    ensures Strip(Lower(s)) == Normalize(s)
  {
    TrimLeftLower(s);
    TrimRightLower(TrimLeft(s));
  }

  /** Normalising twice is normalising once. */
  lemma NormalizeIdempotent(s: string)
    ensures Normalize(Normalize(s)) == Normalize(s)
  {
    var t := Strip(s);
    StripShape(s);
    StripLowerCommute(t);
    assert TrimLeft(t) == t;
    assert TrimRight(t) == t;
    assert Lower(Lower(t)) == Lower(t);
  }

  lemma {:induction false} TrimLeftPadding(pre: string, s: string)
    requires AllSpace(pre)
    ensures TrimLeft(pre + s) == TrimLeft(s)
    decreases |pre|
  {
    if pre != [] {
      assert (pre + s)[0] == pre[0];
      assert (pre + s)[1..] == pre[1..] + s;
      var tail := pre[1..];
      assert AllSpace(tail) by {
        forall i | 0 <= i < |tail| ensures IsSpace(tail[i]) {
          assert tail[i] == pre[i + 1];
        }
      }
      TrimLeftPadding(pre[1..], s);
      assert IsSpace(pre[0]);
      assert TrimLeft(pre + s) == TrimLeft((pre + s)[1..]);
    } else {
      assert pre + s == s;
    }
  }

  lemma {:induction false} TrimRightPadding(s: string, post: string)
    requires AllSpace(post)
    ensures TrimRight(s + post) == TrimRight(s)
    decreases |post|
  {
    if post != [] {
      assert (s + post)[|s + post| - 1] == post[|post| - 1];
      assert (s + post)[..|s + post| - 1] == s + post[..|post| - 1];
      var front := post[..|post| - 1];
      assert AllSpace(front) by {
        forall i | 0 <= i < |front| ensures IsSpace(front[i]) {
          assert front[i] == post[i];
        }
      }
      TrimRightPadding(s, post[..|post| - 1]);
      assert IsSpace(post[|post| - 1]);
      assert TrimRight(s + post) == TrimRight((s + post)[..|s + post| - 1]);
    } else {
      assert s + post == s;
    }
  }

  /** Left-trimming a string followed by a suffix: either the whole string was
      blank, or its trimmed form is kept and the suffix appended. */
  lemma {:induction false} TrimLeftAppend(s: string, post: string)
    ensures AllSpace(s) ==> TrimLeft(s + post) == TrimLeft(post)
    ensures !AllSpace(s) ==> TrimLeft(s + post) == TrimLeft(s) + post
    decreases |s|
  {
    if s == [] {
      assert s + post == post;
    } else if IsSpace(s[0]) {
      assert (s + post)[0] == s[0];
      assert (s + post)[1..] == s[1..] + post;
      TrimLeftAppend(s[1..], post);
      assert AllSpace(s) <==> AllSpace(s[1..]) by {
        if AllSpace(s[1..]) {
          forall i | 0 <= i < |s| ensures IsSpace(s[i]) {
            if i > 0 { assert s[i] == s[1..][i - 1]; }
          }
        }
        if AllSpace(s) {
          forall i | 0 <= i < |s| - 1 ensures IsSpace(s[1..][i]) {
            assert s[1..][i] == s[i + 1];
          }
        }
      }
    } else {
      assert (s + post)[0] == s[0];
    }
  }

  /** `lstrip` of an all-whitespace string is empty. */
  lemma {:induction false} TrimLeftBlank(s: string)
    requires AllSpace(s)
    ensures TrimLeft(s) == []
    decreases |s|
  {
    if s != [] {
      var tail := s[1..];
      assert AllSpace(tail) by {
        forall i | 0 <= i < |tail| ensures IsSpace(tail[i]) {
          assert tail[i] == s[i + 1];
        }
      }
      TrimLeftBlank(tail);
    }
  }

  /** Padding a name with whitespace on either side does not change how it
      compares. */
  lemma NormalizeIgnoresPadding(pre: string, s: string, post: string)
    requires AllSpace(pre) && AllSpace(post)
    ensures Normalize(pre + s + post) == Normalize(s)
  {
    assert pre + s + post == pre + (s + post);
    TrimLeftPadding(pre, s + post);
    TrimLeftAppend(s, post);
    StripShape(s);
    if AllSpace(s) {
      TrimLeftBlank(post);
    } else {
      TrimRightPadding(TrimLeft(s), post);
    }
  }

  /** A name with no whitespace at either end is its own stripped form. */
  lemma StripTrimmed(s: string)
    requires s != [] && !IsSpace(s[0]) && !IsSpace(s[|s| - 1])
    ensures Strip(s) == s
  {}

  /** Case alone does not matter. */
  lemma CaseSpellings()
    ensures Normalize("Sensor") == "sensor"
    ensures Normalize("SENSOR") == "sensor"
  {
    StripTrimmed("Sensor");
    StripTrimmed("SENSOR");
    assert Lower("Sensor") == "sensor";
    assert Lower("SENSOR") == "sensor";
  }

  /** Surrounding blanks alone do not matter. */
  lemma PaddedSpelling()
    ensures Normalize(" sensor ") == "sensor"
  {
    StripTrimmed("sensor");
    assert Lower("sensor") == "sensor";
    assert IsSpace(' ');
    NormalizeIgnoresPadding(" ", "sensor", " ");
    assert " " + "sensor" + " " == " sensor ";
  }

  /** The spellings the matching must accept: each of these matches
      "sensor". */
  lemma SensorSpellings()
    ensures Normalize("Sensor") == "sensor"
    ensures Normalize(" sensor ") == "sensor"
    ensures Normalize("SENSOR") == "sensor"
  {
    CaseSpellings();
    PaddedSpelling();
  }
}
