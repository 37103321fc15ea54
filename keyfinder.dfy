/** Progression matching of `src/keyfinder.rs`: reading chord symbols from
    the user's text, and listing the catalogue keys whose diatonic chords
    include every one of them. */
module KeyFinder {
  import opened Text
  import opened Keys

  /** `KeyError`. */
  datatype KeyError = EmptyInputError | NotFound

  datatype Result<T> = Ok(value: T) | Err(error: KeyError)

  // ---------------------------------------------------------------------
  // is_chord_in_key and find_keys

  /** Every chord of `chords` is one of `chordsInKey`. */
  predicate Covers(chords: seq<string>, chordsInKey: seq<string>)
  {
    forall k | 0 <= k < |chords| :: chords[k] in chordsInKey
  }

  /** `is_chord_in_key`: a scan that gives up at the first chord missing
      from the key. */
  method IsChordInKey(chords: seq<string>, chordsInKey: seq<string>) returns (b: bool)
    ensures b <==> Covers(chords, chordsInKey)
  {
    for k := 0 to |chords|
      invariant Covers(chords[..k], chordsInKey)
    {
      if chords[k] !in chordsInKey {
        return false;
      }
    }
    assert chords[..|chords|] == chords;
    return true;
  }

  /** The keys of `keyData` that cover `userChords`, in their original order. */
  function Matching(userChords: seq<string>, keyData: seq<Key>): (r: seq<Key>)
    ensures |r| <= |keyData|
  {
    if keyData == [] then []
    else
      var last := keyData[|keyData| - 1];
      Matching(userChords, keyData[..|keyData| - 1]) +
        (if Covers(userChords, last.chords) then [last] else [])
  }

  /** A key is kept exactly when it is in the data and covers the input. */
  lemma {:induction false} MatchingMembers(userChords: seq<string>, keyData: seq<Key>, x: Key)
    ensures x in Matching(userChords, keyData) <==> x in keyData && Covers(userChords, x.chords)
  {
    if keyData != [] {
      var init := keyData[..|keyData| - 1];
      MatchingMembers(userChords, init, x);
      assert keyData == init + [keyData[|keyData| - 1]];
    }
  }

  /** Filtering distributes over concatenation, so the kept keys keep their
      relative order. */
  lemma {:induction false} MatchingAppend(userChords: seq<string>, a: seq<Key>, b: seq<Key>)
    ensures Matching(userChords, a + b) == Matching(userChords, a) + Matching(userChords, b)
    decreases |b|
  {
    if b == [] {
      assert a + b == a;
    } else {
      var init := b[..|b| - 1];
      assert (a + b)[..|a + b| - 1] == a + init;
      MatchingAppend(userChords, a, init);
    }
  }

  /** Nothing matches exactly when no key covers the input. */
  lemma MatchingEmpty(userChords: seq<string>, keyData: seq<Key>)
    ensures Matching(userChords, keyData) == [] <==>
      forall k | 0 <= k < |keyData| :: !Covers(userChords, keyData[k].chords)
  {
    var r := Matching(userChords, keyData);
    if r != [] {
      assert r[0] in r;
      MatchingMembers(userChords, keyData, r[0]);
    }
    forall k | 0 <= k < |keyData| && Covers(userChords, keyData[k].chords)
      ensures r != []
    {
      MatchingMembers(userChords, keyData, keyData[k]);
    }
  }

  /** Only which chords occur matters, not their order or repetitions. */
  lemma CoversBySets(chords: seq<string>, chordsInKey: seq<string>, chords2: seq<string>, chordsInKey2: seq<string>)
    requires forall x :: x in chords <==> x in chords2
    requires forall x :: x in chordsInKey <==> x in chordsInKey2
    ensures Covers(chords, chordsInKey) <==> Covers(chords2, chordsInKey2)
  {
    if Covers(chords, chordsInKey) {
      forall k | 0 <= k < |chords2| ensures chords2[k] in chordsInKey2 {
        assert chords2[k] in chords;
      }
    }
    if Covers(chords2, chordsInKey2) {
      forall k | 0 <= k < |chords| ensures chords[k] in chordsInKey {
        assert chords[k] in chords2;
      }
    }
  }

  /** `find_keys`: an error for empty input, otherwise the covering keys in
      catalogue order, or an error when there are none. */
  method FindKeys(userChords: seq<string>, keyData: seq<Key>) returns (res: Result<seq<Key>>)
    ensures userChords == [] ==> res == Err(EmptyInputError)
    ensures res == Err(NotFound) <==>
      userChords != [] && forall k | 0 <= k < |keyData| :: !Covers(userChords, keyData[k].chords)
    ensures res.Ok? ==> res.value == Matching(userChords, keyData) && res.value != []
    ensures userChords != [] && Matching(userChords, keyData) != [] ==> res.Ok?
  {
    var keysResult: seq<Key> := [];
    if userChords == [] {
      return Err(EmptyInputError);
    }
    for i := 0 to |keyData|
      invariant keysResult == Matching(userChords, keyData[..i])
    {
      var isInKey := IsChordInKey(userChords, keyData[i].chords);
      assert keyData[..i + 1][..i] == keyData[..i];
      if isInKey {
        keysResult := keysResult + [keyData[i]];
      }
    }
    assert keyData[..|keyData|] == keyData;
    MatchingEmpty(userChords, keyData);
    if keysResult == [] {
      return Err(NotFound);
    }
    return Ok(keysResult);
  }

  /** The cases of `is_chord_in_key_tests` and `find_keys_tests`. */
  lemma CoverExamples()
    ensures Covers(["C", "Dm", "F"], ["C", "Dm", "Em", "F", "G", "Am", "Bm"])
    ensures !Covers(["C", "Dm", "F"], ["C", "Fm"])
    ensures Covers([], ["C", "Fm"])
    ensures Matching(["C"], [Key("C", ["C", "C"])]) == [Key("C", ["C", "C"])]
  {
    assert ["C", "Dm", "F"][1] == "Dm";
  }

  // ---------------------------------------------------------------------
  // get_user_chords

  /** The rewrites `get_user_chords` applies to each token, in order: a
      pattern and its replacement.  The two glyphs are U+0394 (Δ, major
      seventh) and U+00F8 (ø, half-diminished). */
  const Steps: seq<(string, string)> := [
    ("maj7", ""), ("\U{394}", ""), ("7", ""), ("dom", ""), ("dim", ""),
    ("o", ""), ("\U{F8}", ""), ("aug", ""), ("+", ""), ("6", ""),
    ("9", ""), ("13", ""), ("-", "m")]

  /** Each rewrite in turn, one `str::replace` pass per step. */
  function ApplySteps(s: string, steps: seq<(string, string)>): string
    decreases |steps|
  {
    if steps == [] then s
    else ApplySteps(Replace(s, steps[0].0, steps[0].1), steps[1..])
  }

  /** A token reduced to its basic chord quality. */
  function Simplify(token: string): string
  {
    ApplySteps(token, Steps)
  }

  /** `get_user_chords`: one simplified chord per whitespace-separated
      token, in order. */
  function GetUserChords(userInput: string): (r: seq<string>)
    ensures |r| == |SplitWhitespace(userInput)|
  {
    ApplyEach(SplitWhitespace(userInput), Steps)
  }

  /** The rewrites applied to each token separately. */
  function ApplyEach(tokens: seq<string>, steps: seq<(string, string)>): (r: seq<string>)
    ensures |r| == |tokens|
  {
    seq(|tokens|, i requires 0 <= i < |tokens| => ApplySteps(tokens[i], steps))
  }

  lemma {:induction false} ApplyStepsAppend(s: string, a: seq<(string, string)>, b: seq<(string, string)>)
    ensures ApplySteps(s, a + b) == ApplySteps(ApplySteps(s, a), b)
    decreases |a|
  {
    if a == [] {
      assert a + b == b;
    } else {
      assert (a + b)[1..] == a[1..] + b;
      ApplyStepsAppend(Replace(s, a[0].0, a[0].1), a[1..], b);
    }
  }

  /** Steps whose replacements lack `c` cannot bring it back. */
  lemma {:induction false} StepsKeepAbsent(s: string, steps: seq<(string, string)>, c: char)
    requires c !in s
    requires forall k | 0 <= k < |steps| :: c !in steps[k].1
    ensures c !in ApplySteps(s, steps)
    decreases |steps|
  {
    if steps != [] {
      var t := Replace(s, steps[0].0, steps[0].1);
      if c in t {
        ReplaceChars(s, steps[0].0, steps[0].1, c);
      }
      StepsKeepAbsent(t, steps[1..], c);
    }
  }

  lemma ReplacementsOmit(c: char)
    requires c != 'm'
    ensures forall k | 0 <= k < |Steps| :: c !in Steps[k].1
  {
  }

  /** The one-character pattern removed at step `k` is absent from every
      simplified token, since later steps only delete or insert `m`. */
  lemma RemovedAt(token: string, k: nat, c: char)
    requires k < |Steps| && Steps[k].0 == [c] && c != 'm'
    ensures c !in Simplify(token)
  {
    ReplacementsOmit(c);
    RemovedBy(token, Steps, k, c);
  }

  /** The same for any list of steps whose replacements lack `c`. */
  lemma RemovedBy(token: string, steps: seq<(string, string)>, k: nat, c: char)
    requires k < |steps| && steps[k].0 == [c]
    requires forall j | 0 <= j < |steps| :: c !in steps[j].1
    ensures c !in ApplySteps(token, steps)
  {
    var before := ApplySteps(token, steps[..k]);
    assert steps == steps[..k] + steps[k..];
    ApplyStepsAppend(token, steps[..k], steps[k..]);
    var rest := steps[k..];
    assert ApplySteps(before, rest) == ApplySteps(Replace(before, [c], steps[k].1), rest[1..]);
    ReplaceRemoves(before, c, steps[k].1);
    StepsKeepAbsent(Replace(before, [c], steps[k].1), rest[1..], c);
  }

  /** The characters `get_user_chords` strips. */
  const Stripped: seq<char> := ['7', '6', '9', '+', 'o', '-', '\U{394}', '\U{F8}']

  /** No simplified token holds a stripped character. */
  lemma SimplifyStrips(token: string)
    ensures forall i | 0 <= i < |Stripped| :: Stripped[i] !in Simplify(token)
  {
    StripsDigitsAndPlus(token);
    StripsSymbols(token);
  }

  lemma StripsDigitsAndPlus(token: string)
    ensures '7' !in Simplify(token) && '6' !in Simplify(token)
    ensures '9' !in Simplify(token) && '+' !in Simplify(token)
  {
    RemovedAt(token, 2, '7');
    RemovedAt(token, 9, '6');
    RemovedAt(token, 10, '9');
    RemovedAt(token, 8, '+');
  }

  lemma StripsSymbols(token: string)
    ensures 'o' !in Simplify(token) && '-' !in Simplify(token)
    ensures '\U{394}' !in Simplify(token) && '\U{F8}' !in Simplify(token)
  {
    RemovedAt(token, 5, 'o');
    RemovedAt(token, 12, '-');
    RemovedAt(token, 1, '\U{394}');
    RemovedAt(token, 6, '\U{F8}');
  }

  /** Hence no chord `get_user_chords` returns holds one. */
  lemma UserChordsStripped(userInput: string)
    ensures forall i, j | 0 <= i < |GetUserChords(userInput)| && 0 <= j < |Stripped| ::
      Stripped[j] !in GetUserChords(userInput)[i]
  {
    var r := GetUserChords(userInput);
    forall i | 0 <= i < |r| ensures forall j | 0 <= j < |Stripped| :: Stripped[j] !in r[i] {
      SimplifyStrips(SplitWhitespace(userInput)[i]);
    }
  }

  /** A bare chord symbol: a note letter, optionally `#` or `b`, optionally `m`. */
  predicate IsBare(token: string)
  {
    1 <= |token| <= 3 && 'A' <= token[0] <= 'G' &&
    (forall k | 1 <= k < |token| :: token[k] in "#bm") &&
    (|token| == 3 ==> token[1] != 'm' && token[2] == 'm') &&
    (|token| == 2 ==> token[1] in "#bm")
  }

  /** `pat` occurs nowhere in `s`. */
  predicate Misses(s: string, pat: string)
  {
    pat != [] && forall i: nat | i < |s| :: !OccursAt(s, pat, i)
  }

  /** No step finds its pattern in a bare symbol: each pattern holds a
      character a bare symbol lacks, or is longer. */
  lemma BareOmits(token: string)
    requires IsBare(token)
    ensures forall k | 0 <= k < |Steps| :: Misses(token, Steps[k].0)
  {
    forall k | 0 <= k < |Steps| ensures Misses(token, Steps[k].0) {
      NotOccurring(token, Steps[k].0, 0);
    }
  }

  lemma BareIsToken(token: string)
    requires IsBare(token)
    ensures IsToken(token)
  {
  }

  /** Steps none of whose patterns occurs leave the text unchanged. */
  lemma {:induction false} StepsMissed(s: string, steps: seq<(string, string)>)
    requires forall k | 0 <= k < |steps| :: Misses(s, steps[k].0)
    ensures ApplySteps(s, steps) == s
    decreases |steps|
  {
    if steps != [] {
      ReplaceAbsent(s, steps[0].0, steps[0].1);
      StepsMissed(s, steps[1..]);
    }
  }

  /** Simplifying a bare chord symbol changes nothing. */
  lemma SimplifyBare(token: string)
    requires IsBare(token)
    ensures Simplify(token) == token
  {
    BareOmits(token);
    StepsMissed(token, Steps);
  }

  /** Tokens each of which the rewrites leave alone are left alone. */
  lemma ApplyEachFixed(tokens: seq<string>, steps: seq<(string, string)>)
    requires forall i | 0 <= i < |tokens| :: ApplySteps(tokens[i], steps) == tokens[i]
    ensures ApplyEach(tokens, steps) == tokens
  {
  }

  lemma BareAreTokens(chords: seq<string>)
    requires forall w | w in chords :: IsBare(w)
    ensures forall w | w in chords :: IsToken(w)
  {
    forall w | w in chords ensures IsToken(w) {
      BareIsToken(w);
    }
  }

  /** Tokens the rewrites leave alone, typed with spaces between them, come
      back as they are. */
  lemma FixedJoin(chords: seq<string>, steps: seq<(string, string)>)
    requires forall w | w in chords :: IsToken(w)
    requires forall w | w in chords :: ApplySteps(w, steps) == w
    ensures ApplyEach(SplitWhitespace(JoinSpaces(chords)), steps) == chords
  {
    SplitJoin(chords);
    assert forall i | 0 <= i < |chords| :: chords[i] in chords;
    ApplyEachFixed(chords, steps);
  }

  lemma BareAreFixed(chords: seq<string>)
    requires forall w | w in chords :: IsBare(w)
    ensures forall w | w in chords :: Simplify(w) == w
  {
    forall w | w in chords ensures Simplify(w) == w {
      SimplifyBare(w);
    }
  }

  /** Tokens that simplify to themselves, typed with spaces between them,
      come back as they are. */
  lemma UserChordsOfFixed(chords: seq<string>)
    requires forall w | w in chords :: IsToken(w)
    requires forall w | w in chords :: Simplify(w) == w
    ensures GetUserChords(JoinSpaces(chords)) == chords
  {
    FixedJoin(chords, Steps);
  }

  /** Bare symbols typed with spaces between them come back as they are, so
      applying `get_user_chords` to its own output is then a no-op. */
  lemma UserChordsOfBare(chords: seq<string>)
    requires forall w | w in chords :: IsBare(w)
    ensures GetUserChords(JoinSpaces(chords)) == chords
  {
    BareAreTokens(chords);
    BareAreFixed(chords);
    UserChordsOfFixed(chords);
  }

  /** After steps that miss a text, one step that acts on it, and steps
      that miss the result, the text ends up as that one step makes it. */
  lemma {:induction false} RunThrough(s: string, steps: seq<(string, string)>, k: nat, out: string)
    requires k < |steps|
    requires forall j | 0 <= j < k :: Misses(s, steps[j].0)
    requires Replace(s, steps[k].0, steps[k].1) == out
    requires forall j | k < j < |steps| :: Misses(out, steps[j].0)
    ensures ApplySteps(s, steps) == out
    decreases k
  {
    if k == 0 {
      StepsMissed(out, steps[1..]);
    } else {
      ReplaceAbsent(s, steps[0].0, steps[0].1);
      RunThrough(s, steps[1..], k - 1, out);
    }
  }

  /** A token on which only step `k` acts simplifies to what that step makes
      of it. */
  lemma SimplifyBy(token: string, k: nat, out: string)
    requires k < |Steps|
    requires forall j | 0 <= j < k :: Misses(token, Steps[j].0)
    requires Replace(token, Steps[k].0, Steps[k].1) == out
    requires forall j | k < j < |Steps| :: Misses(out, Steps[j].0)
    ensures Simplify(token) == out
  {
    RunThrough(token, Steps, k, out);
  }

  /** `Cmaj7` loses the suffix at the first step. */
  lemma SimplifyCmaj7()
    ensures Simplify("Cmaj7") == "C"
  {
    var s := "Cmaj7";
    assert Replace(s, "maj7", []) == "C" by {
      assert s[..4][0] != "maj7"[0];
      assert s[1..] == "maj7" && OccursAt(s[1..], "maj7", 0);
      assert s[1..][4..] == [];
    }
    SimplifyBy(s, 0, "C");
  }

  /** A seventh on a bare chord is dropped by the `7` step. */
  lemma SimplifySeventh(chord: string)
    requires IsBare(chord)
    ensures Simplify(chord + "7") == chord
  {
    var s := chord + "7";
    BareOmits(chord);
    ReplaceAtEnd(chord, "7");
    assert Steps[2].0 == "7";
    NotOccurring(s, Steps[0].0, 1);
    NotOccurring(s, Steps[1].0, 0);
    SimplifyBy(s, 2, chord);
  }

  /** Replacing a one-character pattern found only at the end. */
  lemma {:induction false} ReplaceAtEnd(s: string, pat: string)
    requires |pat| == 1 && pat[0] !in s
    ensures Replace(s + pat, pat, []) == s
  {
    if s == [] {
      assert [] + pat == pat && pat[1..] == [];
    } else {
      assert !OccursAt(s + pat, pat, 0) by {
        assert (s + pat)[..1][0] == s[0];
      }
      assert (s + pat)[1..] == s[1..] + pat;
      ReplaceAtEnd(s[1..], pat);
    }
  }

  /** `pat` holds a character `s` lacks first, or is longer than `s`. */
  predicate PlainlyMisses(s: string, pat: string)
  {
    pat != [] && (pat[0] !in s || |s| < |pat|)
  }

  lemma MissedFrom(s: string, m: nat, n: nat)
    requires m <= n <= |Steps|
    requires forall j | m <= j < n :: PlainlyMisses(s, Steps[j].0)
    ensures forall j | m <= j < n :: Misses(s, Steps[j].0)
  {
    forall j | m <= j < n ensures Misses(s, Steps[j].0) {
      NotOccurring(s, Steps[j].0, 0);
    }
  }

  /** Two space-separated tokens are rewritten one by one. */
  lemma TwoTokens(a: string, b: string, steps: seq<(string, string)>)
    requires IsToken(a) && IsToken(b)
    ensures ApplyEach(SplitWhitespace(JoinSpaces([a, b])), steps) == [ApplySteps(a, steps), ApplySteps(b, steps)]
  {
    var tokens := [a, b];
    forall w | w in tokens ensures IsToken(w) {
    }
    SplitJoin(tokens);
  }

  /** The same for four tokens. */
  lemma FourTokens(a: string, b: string, c: string, d: string, steps: seq<(string, string)>)
    requires IsToken(a) && IsToken(b) && IsToken(c) && IsToken(d)
    ensures ApplyEach(SplitWhitespace(JoinSpaces([a, b, c, d])), steps) ==
      [ApplySteps(a, steps), ApplySteps(b, steps), ApplySteps(c, steps), ApplySteps(d, steps)]
  {
    var tokens := [a, b, c, d];
    forall w | w in tokens ensures IsToken(w) {
    }
    SplitJoin(tokens);
  }

  lemma DocumentationTokens()
    ensures IsToken("Cmaj7") && IsToken("Dm") && IsToken("F") && IsToken("G7")
    ensures JoinSpaces(["Cmaj7", "Dm", "F", "G7"]) == "Cmaj7 Dm F G7"
  {
  }

  /** Bare symbols of the examples. */
  lemma BareExamples()
    ensures Simplify("C") == "C" && Simplify("Dm") == "Dm" && Simplify("F") == "F"
  {
    SimplifyBare("C");
    SimplifyBare("Dm");
    SimplifyBare("F");
  }

  lemma SimplifyG7()
    ensures Simplify("G7") == "G"
  {
    SimplifySeventh("G");
    assert "G" + "7" == "G7";
  }

  /** The example of the `get_user_chords` documentation. */
  lemma DocumentationExample()
    ensures GetUserChords("Cmaj7 Dm F G7") == ["C", "Dm", "F", "G"]
  {
    DocumentationTokens();
    SimplifyCmaj7();
    BareExamples();
    SimplifyG7();
    FourTokens("Cmaj7", "Dm", "F", "G7", Steps);
  }

  lemma MinorSeventhDropsSeventh()
    ensures ApplySteps("C-7", Steps[..3]) == "C-"
  {
    var s := "C-7";
    var t := "C-";
    assert s == t + "7";
    ReplaceAtEnd(t, "7");
    NotOccurring(s, "maj7", 0);
    NotOccurring(s, "\U{394}", 0);
    assert Steps[..3] == [("maj7", ""), ("\U{394}", ""), ("7", "")];
    LastOfThree(s, Steps[..3], t);
  }

  lemma LastOfThree(s: string, steps: seq<(string, string)>, t: string)
    requires |steps| == 3
    requires Misses(s, steps[0].0) && Misses(s, steps[1].0)
    requires Replace(s, steps[2].0, steps[2].1) == t
    ensures ApplySteps(s, steps) == t
  {
    RunThrough(s, steps, 2, t);
  }

  lemma MinorSeventhMarksMinor()
    ensures ApplySteps("C-", Steps[3..]) == "Cm"
  {
    var t := "C-";
    assert Replace(t, "-", "m") == "Cm" by {
      assert !OccursAt(t, "-", 0) by { assert t[..1] == "C"; }
      assert t[1..] == "-";
    }
    MissedFrom(t, 3, 12);
    RunThrough(t, Steps[3..], 9, "Cm");
  }

  /** `-` becomes `m` only after the seventh is gone: `C-7` is C minor. */
  lemma SimplifyMinorSeventh()
    ensures Simplify("C-7") == "Cm"
  {
    MinorSeventhDropsSeventh();
    MinorSeventhMarksMinor();
    ApplyStepsAppend("C-7", Steps[..3], Steps[3..]);
    assert Steps[..3] + Steps[3..] == Steps;
  }

  /** A lone `7` loses everything. */
  lemma SimplifyLoneSeventh()
    ensures Simplify("7") == []
  {
    var s := "7";
    var e: string := [];
    ReplaceAtEnd(e, s);
    assert e + s == s;
    assert Steps[2] == (s, e);
    MissedFrom(s, 0, 2);
    MissedFrom(e, 3, 13);
    SimplifyBy(s, 2, e);
  }

  lemma LoneSeventhTokens()
    ensures IsToken("C") && IsToken("7") && JoinSpaces(["C", "7"]) == "C 7"
  {
  }

  /** A token that loses everything still yields an (empty) chord. */
  lemma EmptyChordKept()
    ensures GetUserChords("C 7") == ["C", []]
  {
    LoneSeventhTokens();
    BareExamples();
    SimplifyLoneSeventh();
    TwoTokens("C", "7", Steps);
  }

  lemma Simplify1133()
    ensures Simplify("1133") == "13"
  {
    var s := "1133";
    var t := "13";
    assert Replace(s, t, []) == t by {
      assert !OccursAt(s, t, 0) by { assert s[..2][1] == '1'; }
      assert s[1..][..2] == t;
      assert s[1..][2..] == "3";
      NotOccurring("3", t, 0);
      ReplaceAbsent("3", t, []);
    }
    assert Steps[11] == (t, []);
    MissedFrom(s, 0, 11);
    MissedFrom(t, 12, 13);
    SimplifyBy(s, 11, t);
  }

  lemma Simplify13()
    ensures Simplify("13") == []
  {
    var t := "13";
    var e: string := [];
    assert Replace(t, t, e) == e by {
      assert t[2..] == e;
    }
    assert Steps[11] == (t, e);
    MissedFrom(t, 0, 11);
    MissedFrom(e, 12, 13);
    SimplifyBy(t, 11, e);
  }

  /** Simplifying is not idempotent on arbitrary text: deleting `13` from
      `1133` leaves a new `13`. */
  lemma SimplifyNotIdempotent()
    ensures Simplify(Simplify("1133")) != Simplify("1133")
  {
    Simplify1133();
    Simplify13();
  }
}
