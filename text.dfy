/** The two pieces of Rust's `str` API that `get_user_chords` relies on:
    `split_whitespace` and `replace`. */
module Text {

  /** Unicode `White_Space`, the property `str::split_whitespace` splits on. */
  predicate IsWhitespace(c: char)
  {
    ('\t' <= c <= '\r') || c == ' ' || c == '\U{85}' || c == '\U{A0}' || c == '\U{1680}' ||
    ('\U{2000}' <= c <= '\U{200A}') || c == '\U{2028}' || c == '\U{2029}' ||
    c == '\U{202F}' || c == '\U{205F}' || c == '\U{3000}'
  }

  /** A string with at least one character and no whitespace: what
      `split_whitespace` yields. */
  predicate IsToken(w: string)
  {
    w != [] && forall k | 0 <= k < |w| :: !IsWhitespace(w[k])
  }

  /** The longest prefix of `s` free of whitespace. */
  function LeadingWord(s: string): (w: string)
    ensures |w| <= |s| && w == s[..|w|]
    ensures forall k | 0 <= k < |w| :: !IsWhitespace(w[k])
    ensures |w| == |s| || IsWhitespace(s[|w|])
  {
    if s == [] || IsWhitespace(s[0]) then []
    else [s[0]] + LeadingWord(s[1..])
  }

  /** `str::split_whitespace`, collected: the maximal runs of non-whitespace
      characters, in order. */
  function SplitWhitespace(s: string): (r: seq<string>)
    ensures forall w | w in r :: IsToken(w)
    decreases |s|
  {
    if s == [] then []
    else if IsWhitespace(s[0]) then SplitWhitespace(s[1..])
    else
      var w := LeadingWord(s);
      [w] + SplitWhitespace(s[|w|..])
  }

  /** The characters of `s` that are not whitespace. */
  function Visible(s: string): string
  {
    if s == [] then []
    else (if IsWhitespace(s[0]) then [] else [s[0]]) + Visible(s[1..])
  }

  function Flatten(r: seq<string>): string
  {
    if r == [] then [] else r[0] + Flatten(r[1..])
  }

  /** Tokens joined by single spaces, as a user would type them. */
  function JoinSpaces(r: seq<string>): string
  {
    if r == [] then []
    else if |r| == 1 then r[0]
    else r[0] + " " + JoinSpaces(r[1..])
  }

  lemma {:induction false} VisibleAppend(a: string, b: string)
    ensures Visible(a + b) == Visible(a) + Visible(b)
  {
    if a == [] {
      assert a + b == b;
    } else {
      assert (a + b)[1..] == a[1..] + b;
      VisibleAppend(a[1..], b);
    }
  }

  /** Splitting loses nothing but the whitespace: concatenating the tokens
      gives back every other character, in order. */
  lemma {:induction false} SplitKeepsText(s: string)
    ensures Flatten(SplitWhitespace(s)) == Visible(s)
    decreases |s|
  {
    if s != [] {
      if IsWhitespace(s[0]) {
        SplitKeepsText(s[1..]);
      } else {
        var w := LeadingWord(s);
        assert s == w + s[|w|..];
        VisibleAppend(w, s[|w|..]);
        NoWhitespaceVisible(w);
        SplitKeepsText(s[|w|..]);
        assert SplitWhitespace(s)[1..] == SplitWhitespace(s[|w|..]);
      }
    }
  }

  lemma {:induction false} NoWhitespaceVisible(w: string)
    requires forall k | 0 <= k < |w| :: !IsWhitespace(w[k])
    ensures Visible(w) == w
  {
    if w != [] {
      NoWhitespaceVisible(w[1..]);
    }
  }

  lemma {:induction false} LeadingWordOfToken(w: string, rest: string)
    requires forall k | 0 <= k < |w| :: !IsWhitespace(w[k])
    requires rest == [] || IsWhitespace(rest[0])
    ensures LeadingWord(w + rest) == w
  {
    if w == [] {
      assert w + rest == rest;
    } else {
      assert (w + rest)[1..] == w[1..] + rest;
      LeadingWordOfToken(w[1..], rest);
    }
  }

  /** A token on its own splits into itself. */
  lemma SplitToken(w: string)
    requires IsToken(w)
    ensures SplitWhitespace(w) == [w]
  {
    LeadingWordOfToken(w, []);
    assert w + [] == w;
    assert w[|w|..] == [];
  }

  /** A token followed by a space splits off first. */
  lemma SplitTokenSpace(w: string, rest: string)
    requires IsToken(w)
    ensures SplitWhitespace(w + " " + rest) == [w] + SplitWhitespace(rest)
  {
    var tail := " " + rest;
    assert w + " " + rest == w + tail;
    LeadingWordOfToken(w, tail);
    assert (w + tail)[|w|..] == tail;
    assert tail[1..] == rest;
  }

  /** Splitting undoes joining with spaces. */
  lemma {:induction false} SplitJoin(r: seq<string>)
    requires forall w | w in r :: IsToken(w)
    ensures SplitWhitespace(JoinSpaces(r)) == r
  {
    if r != [] {
      assert r[0] in r;
    }
    if |r| == 1 {
      SplitToken(r[0]);
    } else if |r| > 1 {
      assert forall w | w in r[1..] :: w in r;
      SplitTokenSpace(r[0], JoinSpaces(r[1..]));
      SplitJoin(r[1..]);
      assert r == [r[0]] + r[1..];
    }
  }

  // ---------------------------------------------------------------------
  // str::replace

  /** `pat` occurs in `s` starting at `i`. */
  predicate OccursAt(s: string, pat: string, i: nat)
  {
    i + |pat| <= |s| && s[i..i + |pat|] == pat
  }

  /** `str::replace(s, pat, rep)`: scanning from the left, each occurrence of
      `pat` that does not overlap an earlier replaced one becomes `rep`.  An
      empty pattern matches before every character and at the end. */
  function Replace(s: string, pat: string, rep: string): string
    decreases |s|
  {
    if pat == [] then
      if s == [] then rep else rep + [s[0]] + Replace(s[1..], pat, rep)
    else if OccursAt(s, pat, 0) then rep + Replace(s[|pat|..], pat, rep)
    else if s == [] then []
    else [s[0]] + Replace(s[1..], pat, rep)
  }

  /** A pattern that does not occur leaves the text as it is. */
  lemma {:induction false} ReplaceAbsent(s: string, pat: string, rep: string)
    requires pat != [] && forall i: nat | i < |s| :: !OccursAt(s, pat, i)
    ensures Replace(s, pat, rep) == s
    decreases |s|
  {
    if s != [] {
      assert !OccursAt(s, pat, 0);
      forall i: nat | i < |s[1..]| ensures !OccursAt(s[1..], pat, i) {
        assert !OccursAt(s, pat, i + 1);
        if i + |pat| <= |s[1..]| {
          assert s[1..][i..i + |pat|] == s[i + 1..i + 1 + |pat|];
        }
      }
      ReplaceAbsent(s[1..], pat, rep);
    }
  }

  /** In particular when one of its characters is missing, or it is too
      long. */
  lemma NotOccurring(s: string, pat: string, p: nat)
    requires p < |pat| && (pat[p] !in s || |s| < |pat|)
    ensures forall i: nat | i < |s| :: !OccursAt(s, pat, i)
  {
    forall i: nat | i < |s| ensures !OccursAt(s, pat, i) {
      CharOfOccurrence(s, pat, i, p);
    }
  }

  lemma CharOfOccurrence(s: string, pat: string, i: nat, p: nat)
    ensures OccursAt(s, pat, i) && p < |pat| ==> s[i + p] == pat[p]
  {
    if OccursAt(s, pat, i) && p < |pat| {
      assert s[i..i + |pat|][p] == s[i + p];
    }
  }

  /** Output characters come from the input or from the replacement. */
  lemma {:induction false} ReplaceChars(s: string, pat: string, rep: string, c: char)
    requires c in Replace(s, pat, rep)
    ensures c in s || c in rep
    decreases |s|
  {
    if pat == [] {
      if s != [] {
        if c !in rep + [s[0]] {
          ReplaceChars(s[1..], pat, rep, c);
        }
      }
    } else if OccursAt(s, pat, 0) {
      if c !in rep {
        ReplaceChars(s[|pat|..], pat, rep, c);
      }
    } else if s != [] {
      if c != s[0] {
        ReplaceChars(s[1..], pat, rep, c);
      }
    }
  }

  /** Replacing a single character by text without it removes it. */
  lemma {:induction false} ReplaceRemoves(s: string, c: char, rep: string)
    requires c !in rep
    ensures c !in Replace(s, [c], rep)
    decreases |s|
  {
    if s != [] {
      if OccursAt(s, [c], 0) {
        ReplaceRemoves(s[1..], c, rep);
        assert s[|[c]|..] == s[1..];
      } else {
        assert s[0] != c by {
          assert s[..1] == [s[0]];
        }
        ReplaceRemoves(s[1..], c, rep);
      }
    }
  }

  /** Deleting a pattern never lengthens the text. */
  lemma {:induction false} DeleteShortens(s: string, pat: string)
    requires pat != []
    ensures |Replace(s, pat, [])| <= |s|
    decreases |s|
  {
    if OccursAt(s, pat, 0) {
      DeleteShortens(s[|pat|..], pat);
    } else if s != [] {
      DeleteShortens(s[1..], pat);
    }
  }

  /** A single pass: a new occurrence formed by a deletion stays. */
  lemma ReplaceSinglePass()
    ensures Replace("mmaj7aj7", "maj7", []) == "maj7"
  {
    var s := "mmaj7aj7";
    assert s[..4][1] != "maj7"[1];
    assert OccursAt(s[1..], "maj7", 0);
    assert s[1..][4..] == "aj7";
    assert !OccursAt("aj7", "maj7", 0);
    assert Replace("aj7", "maj7", []) == "aj7" by {
      NotOccurring("aj7", "maj7", 0);
      ReplaceAbsent("aj7", "maj7", []);
    }
  }
}
