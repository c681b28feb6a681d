/**
 * The two string operations the pipeline relies on: lower-casing for the
 * case-insensitive ".wav" test, and whitespace stripping for dropping blank
 * utterances.
 */
module Text {

  /**
   * Lower-case one character; only the ASCII letters A-Z are mapped. Only an
   * upper-case letter changes, a letter stays a letter, and no upper-case
   * letter is left.
   */
  function LowerChar(c: char): (d: char)
    ensures d != c ==> 'A' <= c <= 'Z'
    ensures ('a' <= d <= 'z') <==> ('a' <= c <= 'z' || 'A' <= c <= 'Z')
    ensures !('A' <= d <= 'Z')
  {
    if 'A' <= c <= 'Z' then (c as int + 32) as char else c
  }

  /** The lower-cased string, character by character: no upper-case letter is left. */
  function Lower(s: string): (r: string)
    ensures |r| == |s|
    ensures forall i :: 0 <= i < |r| ==> !('A' <= r[i] <= 'Z')
  {
    seq(|s|, i requires 0 <= i < |s| => LowerChar(s[i]))
  }

  /** Lower-casing twice is lower-casing once. */
  lemma LowerIdempotent(s: string)
    ensures Lower(Lower(s)) == Lower(s)
  {
    var r := Lower(s);
    forall i | 0 <= i < |r| ensures Lower(r)[i] == r[i] {
      assert LowerChar(r[i]) == r[i];
    }
  }

  /**
   * Lower-casing commutes with taking a suffix, which is why a suffix test on
   * the lower-cased string looks only at the last characters.
   */
  lemma LowerSuffix(s: string, i: nat)
    requires i <= |s|
    ensures Lower(s[i..]) == Lower(s)[i..]
  {
    forall k | 0 <= k < |s| - i ensures Lower(s[i..])[k] == Lower(s)[i..][k] {
      assert s[i..][k] == s[i + k];
    }
  }

  /**
   * The accepted-extension test: the last four characters are '.', then
   * w, a, v in either case.
   */
  function EndsWithWav(url: string): bool
  {
    && |url| >= 4
    && url[|url| - 4] == '.'
    && LowerChar(url[|url| - 3]) == 'w'
    && LowerChar(url[|url| - 2]) == 'a'
    && LowerChar(url[|url| - 1]) == 'v'
  }

  /** The test is "the lower-cased URL ends with .wav", so it ignores case. */
  lemma EndsWithWavIsLowerSuffix(url: string)
    ensures EndsWithWav(url) <==> |Lower(url)| >= 4 && Lower(url)[|url| - 4..] == ".wav"
    ensures EndsWithWav(url) == EndsWithWav(Lower(url))
  {
    var low := Lower(url);
    if |url| >= 4 {
      var tail := low[|url| - 4..];
      if EndsWithWav(url) {
        assert tail == [low[|url| - 4], low[|url| - 3], low[|url| - 2], low[|url| - 1]];
      }
      if tail == ".wav" {
        assert tail[0] == '.' && tail[1] == 'w' && tail[2] == 'a' && tail[3] == 'v';
      }
    }
  }

  /** Both spellings of the suffix pass, so "X.WAV" is accepted. */
  lemma EndsWithWavAnyCase(url: string)
    ensures EndsWithWav(url) <==>
              && |url| >= 4
              && url[|url| - 4] == '.'
              && (url[|url| - 3] == 'w' || url[|url| - 3] == 'W')
              && (url[|url| - 2] == 'a' || url[|url| - 2] == 'A')
              && (url[|url| - 1] == 'v' || url[|url| - 1] == 'V')
  {
  }

  /** Python's str.isspace, for one character. */
  predicate IsSpace(c: char)
  {
    || '\t' <= c <= '\r'
    || '\U{1c}' <= c <= '\U{1f}'
    || c == ' '
    || c == '\U{85}'
    || c == '\U{a0}'
    || c == '\U{1680}'
    || '\U{2000}' <= c <= '\U{200a}'
    || c == '\U{2028}'
    || c == '\U{2029}'
    || c == '\U{202f}'
    || c == '\U{205f}'
    || c == '\U{3000}'
  }

  /** True when every character is whitespace (in particular for the empty string). */
  predicate Blank(s: string)
  {
    s == [] || (IsSpace(s[0]) && Blank(s[1..]))
  }

  /** Blank and HasContent are complements. */
  lemma {:induction false} BlankIffNoContent(s: string)
    ensures Blank(s) <==> !HasContent(s)
  {
    if s != [] {
      BlankIffNoContent(s[1..]);
      assert forall i :: 1 <= i < |s| ==> s[i] == s[1..][i - 1];
      if !IsSpace(s[0]) {
        assert !IsSpace(s[0]);
      } else if HasContent(s[1..]) {
        var i :| 0 <= i < |s[1..]| && !IsSpace(s[1..][i]);
        assert !IsSpace(s[i + 1]);
      }
    }
  }

  /** True when the string holds at least one non-whitespace character. */
  predicate HasContent(s: string)
  {
    exists i :: 0 <= i < |s| && !IsSpace(s[i])
  }

  /** Python's str.lstrip(): leading whitespace removed. */
  function LStrip(s: string): string
  {
    if s != [] && IsSpace(s[0]) then LStrip(s[1..]) else s
  }

  /** Python's str.rstrip(): trailing whitespace removed. */
  function RStrip(s: string): string
  {
    if s != [] && IsSpace(s[|s| - 1]) then RStrip(s[..|s| - 1]) else s
  }

  /** Python's str.strip() with no argument. */
  function Strip(s: string): string
  {
    RStrip(LStrip(s))
  }

  /** LStrip keeps the longest suffix that does not start with whitespace. */
  lemma {:induction false} LStripSpec(s: string)
    ensures var r := LStrip(s);
            && |r| <= |s| && r == s[|s| - |r|..]
            && (forall i :: 0 <= i < |s| - |r| ==> IsSpace(s[i]))
            && (r != [] ==> !IsSpace(r[0]))
  {
    if s != [] && IsSpace(s[0]) {
      var t := s[1..];
      LStripSpec(t);
      var r := LStrip(t);
      assert LStrip(s) == r;
      assert t[|t| - |r|..] == s[|s| - |r|..];
      forall i | 0 <= i < |s| - |r|
        ensures IsSpace(s[i])
      {
        if i > 0 {
          assert s[i] == t[i - 1];
        }
      }
    }
  }

  /** RStrip keeps the longest prefix that does not end in whitespace. */
  lemma {:induction false} RStripSpec(s: string)
    ensures var r := RStrip(s);
            && |r| <= |s| && r == s[..|r|]
            && (forall i :: |r| <= i < |s| ==> IsSpace(s[i]))
            && (r != [] ==> !IsSpace(r[|r| - 1]))
  {
    if s != [] && IsSpace(s[|s| - 1]) {
      var t := s[..|s| - 1];
      RStripSpec(t);
      var r := RStrip(t);
      assert RStrip(s) == r;
      assert t[..|r|] == s[..|r|];
      forall i | |r| <= i < |s|
        ensures IsSpace(s[i])
      {
        if i < |s| - 1 {
          assert s[i] == t[i];
        }
      }
    }
  }

  /** Stripping leaves nothing exactly when every character is whitespace. */
  lemma StripEmptyIffBlank(s: string)
    ensures Strip(s) == [] <==> Blank(s)
  {
    BlankIffNoContent(s);
    var l := LStrip(s);
    LStripSpec(s);
    RStripSpec(l);
    if l != [] {
      assert !IsSpace(l[0]);
    } else {
      assert forall i :: 0 <= i < |s| ==> IsSpace(s[i]);
    }
  }
}
