/** The key catalogue of `src/keys.rs`: the tables of note names, the scale
    generation for major and natural-minor keys, the circle-of-fifths filter,
    and the sort-then-deduplicate step that leaves one key per tonic.

    The Rust code fills a caller-owned `Vec<Key>` in place; here that vector
    is the class `KeyVec`, whose `elems` the methods reassign.  Each method is
    proved against a function on sequences (`Generated`, `SortKeys`, `Dedup`,
    `Catalog`), and the lemmas state what those functions mean. */
module Keys {
  import opened Order

  /** A key: its tonic and the seven diatonic chords built on it, in
      scale-degree order.  Rust derives `Ord` on the fields in order. */
  datatype Key = Key(tonic: string, chords: seq<string>)

  /** Derived `Ord` of `Key`: tonic first, then the chord list. */
  predicate KeyLt(a: Key, b: Key)
  {
    StrLt(a.tonic, b.tonic) || (a.tonic == b.tonic && ListLt(a.chords, b.chords))
  }

  predicate KeyLe(a: Key, b: Key)
  {
    a == b || KeyLt(a, b)
  }

  lemma KeyLeTransitive(a: Key, b: Key, c: Key)
    requires KeyLe(a, b) && KeyLe(b, c)
    ensures KeyLe(a, c)
  {
    if a != b && b != c {
      StrLtIrreflexive(a.tonic);
      StrLtIrreflexive(b.tonic);
      if a.tonic == b.tonic && b.tonic == c.tonic {
        ListLtTransitive(a.chords, b.chords, c.chords);
      } else if a.tonic != b.tonic && b.tonic != c.tonic {
        StrLtTransitive(a.tonic, b.tonic, c.tonic);
      }
    }
  }

  lemma KeyLeTotal(a: Key, b: Key)
    ensures KeyLe(a, b) || KeyLe(b, a)
  {
    StrLtTotal(a.tonic, b.tonic);
    ListLtTotal(a.chords, b.chords);
  }

  lemma KeyLeAntisymmetric(a: Key, b: Key)
    requires KeyLe(a, b) && KeyLe(b, a)
    ensures a == b
  {
    if a != b {
      if a.tonic != b.tonic {
        StrLtAsymmetric(a.tonic, b.tonic);
      } else {
        StrLtIrreflexive(a.tonic);
        ListLtTransitive(a.chords, b.chords, a.chords);
        ListLtIrreflexive(a.chords);
      }
    }
  }

  // ---------------------------------------------------------------------
  // The tables

  const MajorSharps: seq<string> := [
    "C", "C#", "D", "D#", "E", "F", "F#", "G", "G#", "A", "A#", "B",
    "C", "C#", "D", "D#", "E", "F", "F#", "G", "G#", "A", "A#", "B"]

  const MajorFlats: seq<string> := [
    "C", "Db", "D", "Eb", "Fb", "F", "Gb", "G", "Ab", "A", "Bb", "Cb",
    "C", "Db", "D", "Eb", "Fb", "F", "Gb", "G", "Ab", "A", "Bb", "B"]

  const MinorSharps: seq<string> := [
    "Cm", "C#m", "Dm", "D#m", "Em", "Fm", "F#m", "Gm", "G#m", "Am", "A#m", "Bm",
    "Cm", "C#m", "Dm", "D#m", "Em", "Fm", "F#m", "Gm", "G#m", "Am", "A#m", "Bm"]

  const MinorFlats: seq<string> := [
    "Cm", "Dbm", "Dm", "Ebm", "Em", "Fm", "Gbm", "Gm", "Abm", "Am", "Bbm", "Bm",
    "Cm", "Dbm", "Dm", "Ebm", "Em", "Fm", "Gbm", "Gm", "Abm", "Am", "Bbm", "Bm"]

  /** Semitone steps between consecutive scale degrees. */
  const MajorIntervals: seq<nat> := [2, 2, 1, 2, 2, 2, 1]
  const MinorIntervals: seq<nat> := [2, 1, 2, 2, 1, 2, 1]

  /** Tonics whose scales need double sharps or flats; they are skipped. */
  const AccidentalMajorKeys: seq<string> := ["D#", "E#", "Fb", "G#", "A#", "B#"]
  const AccidentalMinorKeys: seq<string> := ["Dbm", "E#m", "Fbm", "Gbm", "B#m", "Cbm"]

  /** A pass visits the first twelve table positions, one per semitone. */
  const Octave: nat := 12

  datatype Mode = Major | Minor

  /** The table one generation pass reads. */
  function Table(mode: Mode, hasSharps: bool): (t: seq<string>)
    ensures |t| == 24
  {
    match mode
    case Major => if hasSharps then MajorSharps else MajorFlats
    case Minor => if hasSharps then MinorSharps else MinorFlats
  }

  function Intervals(mode: Mode): (iv: seq<nat>)
    ensures |iv| == 7
  {
    if mode == Major then MajorIntervals else MinorIntervals
  }

  /** Semitones from the tonic to scale degree `j`. */
  function Offset(intervals: seq<nat>, j: nat): nat
    requires j <= |intervals|
  {
    if j == 0 then 0 else Offset(intervals, j - 1) + intervals[j - 1]
  }

  /** The seventh degree lies 11 semitones (major) or 10 (minor) above the
      tonic, so index `i + Offset` stays inside the 24-entry tables. */
  lemma OffsetBound(mode: Mode, j: nat)
    requires j < 7
    ensures Offset(Intervals(mode), j) <= (if mode == Major then 11 else 10)
    ensures j > 0 ==> Offset(Intervals(mode), j - 1) < Offset(Intervals(mode), j)
  {
    var iv := Intervals(mode);
    assert Offset(iv, 1) == 2;
    if mode == Major {
      assert Offset(iv, 3) == 5 && Offset(iv, 6) == 11;
    } else {
      assert Offset(iv, 3) == 5 && Offset(iv, 6) == 10;
    }
  }

  /** Scale degrees whose chord quality differs from the tonic's: ii, iii,
      vi and vii are minor in a major key (vii is treated as minor, not
      diminished); III, VI and VII are major in a minor key. */
  predicate Flipped(mode: Mode, j: nat)
  {
    match mode
    case Major => j == 1 || j == 2 || j == 5 || j == 6
    case Minor => j == 2 || j == 5 || j == 6
  }

  /** `String::pop`: drop the last character, if any. */
  function Pop(s: string): (r: string)
    ensures s == [] ==> r == []
    ensures s != [] ==> r + [s[|s| - 1]] == s
  {
    if s == [] then s else s[..|s| - 1]
  }

  /** The chord on degree `j` of the key on table position `i`. */
  function ChordAt(mode: Mode, hasSharps: bool, i: nat, j: nat): string
    requires i < 12 && j < 7
  {
    OffsetBound(mode, j);
    var base := Table(mode, hasSharps)[i + Offset(Intervals(mode), j)];
    if !Flipped(mode, j) then base
    else if mode == Major then base + "m"
    else Pop(base)
  }

  /** The seven chords of the key on table position `i`. */
  function Scale(mode: Mode, hasSharps: bool, i: nat): (s: seq<string>)
    requires i < 12
    ensures |s| == 7
  {
    seq(7, j requires 0 <= j < 7 => ChordAt(mode, hasSharps, i, j))
  }

  lemma ChordAtIndex(mode: Mode, hasSharps: bool, i: nat, j: nat, idx: nat)
    requires i < 12 && j < 7 && idx == i + Offset(Intervals(mode), j)
    ensures idx < 24
    ensures ChordAt(mode, hasSharps, i, j) ==
      if !Flipped(mode, j) then Table(mode, hasSharps)[idx]
      else if mode == Major then Table(mode, hasSharps)[idx] + "m"
      else Pop(Table(mode, hasSharps)[idx])
  {
    OffsetBound(mode, j);
  }

  lemma ScaleStep(mode: Mode, hasSharps: bool, i: nat, j: nat)
    requires i < 12 && j < 7
    ensures Scale(mode, hasSharps, i)[..j + 1] == Scale(mode, hasSharps, i)[..j] + [ChordAt(mode, hasSharps, i, j)]
  {
  }

  /** The circle-of-fifths filter: membership in the reject list of the mode. */
  predicate IsAccidental(tonic: string, isMajor: bool)
  {
    tonic in (if isMajor then AccidentalMajorKeys else AccidentalMinorKeys)
  }

  /** What one iteration of a generation pass appends. */
  function GeneratedAt(mode: Mode, hasSharps: bool, i: nat): seq<Key>
    requires i < 12
  {
    var tonic := Table(mode, hasSharps)[i];
    if IsAccidental(tonic, mode == Major) then []
    else [Key(tonic, Scale(mode, hasSharps, i))]
  }

  /** What each of the twelve iterations of a generation pass appends. */
  function Iterations(mode: Mode, hasSharps: bool): (its: seq<seq<Key>>)
    ensures |its| == 12
  {
    seq(12, i requires 0 <= i < 12 => GeneratedAt(mode, hasSharps, i))
  }

  /** What the first `n` iterations of a generation pass append. */
  function Generated(mode: Mode, hasSharps: bool, n: nat): seq<Key>
    requires n <= 12
  {
    Concat(Iterations(mode, hasSharps)[..n])
  }

  function Concat(ss: seq<seq<Key>>): seq<Key>
  {
    if ss == [] then [] else Concat(ss[..|ss| - 1]) + ss[|ss| - 1]
  }

  lemma GeneratedStep(mode: Mode, hasSharps: bool, n: nat)
    requires n < 12
    ensures Generated(mode, hasSharps, n + 1) == Generated(mode, hasSharps, n) + GeneratedAt(mode, hasSharps, n)
  {
    var its := Iterations(mode, hasSharps);
    assert its[..n + 1][..n] == its[..n];
  }

  /** A pass yields exactly the keys on the first `n` table positions whose
      tonic passes the filter. */
  lemma {:induction false} GeneratedMembers(mode: Mode, hasSharps: bool, n: nat, c: Key)
    requires n <= 12
    ensures c in Generated(mode, hasSharps, n) <==> exists i: nat | i < n :: GeneratedBy(c, mode, hasSharps, i)
  {
    if n > 0 {
      GeneratedStep(mode, hasSharps, n - 1);
      GeneratedMembers(mode, hasSharps, n - 1, c);
      GeneratedAtMembers(mode, hasSharps, n - 1, c);
      if GeneratedBy(c, mode, hasSharps, n - 1) {
        assert exists i: nat | i < n :: GeneratedBy(c, mode, hasSharps, i);
      }
      if exists i: nat | i < n :: GeneratedBy(c, mode, hasSharps, i) {
        var i: nat :| i < n && GeneratedBy(c, mode, hasSharps, i);
        if i < n - 1 {
          assert exists i: nat | i < n - 1 :: GeneratedBy(c, mode, hasSharps, i);
        }
      }
    }
  }

  lemma GeneratedAtMembers(mode: Mode, hasSharps: bool, i: nat, c: Key)
    requires i < 12
    ensures c in GeneratedAt(mode, hasSharps, i) <==> GeneratedBy(c, mode, hasSharps, i)
  {
  }

  /** Iteration `i` of the pass over `Table(mode, hasSharps)` emits `c`. */
  predicate GeneratedBy(c: Key, mode: Mode, hasSharps: bool, i: nat)
  {
    i < 12 && !IsAccidental(Table(mode, hasSharps)[i], mode == Major) &&
    c == Key(Table(mode, hasSharps)[i], Scale(mode, hasSharps, i))
  }

  /** The four passes of `init`, in order. */
  function Candidates(): seq<Key>
  {
    Generated(Major, true, Octave) + Generated(Major, false, Octave) +
    Generated(Minor, true, Octave) + Generated(Minor, false, Octave)
  }

  /** The candidates are exactly the keys some iteration of some pass emits. */
  lemma CandidateMembers(c: Key)
    ensures c in Candidates() <==> exists mode: Mode, hasSharps: bool, i: nat :: GeneratedBy(c, mode, hasSharps, i)
  {
    GeneratedMembers(Major, true, Octave, c);
    GeneratedMembers(Major, false, Octave, c);
    GeneratedMembers(Minor, true, Octave, c);
    GeneratedMembers(Minor, false, Octave, c);
    if exists mode: Mode, hasSharps: bool, i: nat :: GeneratedBy(c, mode, hasSharps, i) {
      var mode: Mode, hasSharps: bool, i: nat :| GeneratedBy(c, mode, hasSharps, i);
      assert i < Octave;
      assert c in Generated(mode, hasSharps, Octave);
    }
  }

  /** Every candidate carries seven chords, the first being its tonic, and
      its tonic passed the filter of the pass that made it. */
  lemma CandidateShape(c: Key)
    requires c in Candidates()
    ensures |c.chords| == 7 && c.chords[0] == c.tonic
    ensures exists mode: Mode, hasSharps: bool, i: nat ::
      i < 12 && c.tonic == Table(mode, hasSharps)[i] && !IsAccidental(c.tonic, mode == Major)
  {
    CandidateMembers(c);
    var mode: Mode, hasSharps: bool, i: nat :| GeneratedBy(c, mode, hasSharps, i);
    ScaleStartsOnTonic(mode, hasSharps, i);
  }

  // ---------------------------------------------------------------------
  // Chord quality of the generated scales

  /** The last character of a string is `m`. */
  predicate EndsInM(s: string)
  {
    s != [] && s[|s| - 1] == 'm'
  }

  /** Major table entries carry no `m`; minor ones end in exactly one. */
  lemma TableShapes(mode: Mode, hasSharps: bool, k: nat)
    requires k < 24
    ensures mode == Major ==> !EndsInM(Table(mode, hasSharps)[k])
    ensures mode == Minor ==>
      EndsInM(Table(mode, hasSharps)[k]) && !EndsInM(Pop(Table(mode, hasSharps)[k]))
  {
    if mode == Major {
      if hasSharps { MajorShape(MajorSharps); } else { MajorShape(MajorFlats); }
    } else {
      if hasSharps { MinorShape(MinorSharps); } else { MinorShape(MinorFlats); }
    }
  }

  lemma MajorShape(t: seq<string>)
    requires t == MajorSharps || t == MajorFlats
    ensures forall k | 0 <= k < |t| :: !EndsInM(t[k])
  {
  }

  lemma MinorShape(t: seq<string>)
    requires t == MinorSharps || t == MinorFlats
    ensures forall k | 0 <= k < |t| :: EndsInM(t[k]) && !EndsInM(Pop(t[k]))
  {
  }

  /** The first chord of every scale is the tonic's own chord. */
  lemma ScaleStartsOnTonic(mode: Mode, hasSharps: bool, i: nat)
    requires i < 12
    ensures Scale(mode, hasSharps, i)[0] == Table(mode, hasSharps)[i]
  {
    ChordAtIndex(mode, hasSharps, i, 0, i);
  }

  /** Degree `j` of a scale carries a minor chord exactly when the mode
      calls for one: in a major key on the flipped degrees, in a minor key
      on the others. */
  lemma ScaleQuality(mode: Mode, hasSharps: bool, i: nat, j: nat)
    requires i < 12 && j < 7
    ensures EndsInM(Scale(mode, hasSharps, i)[j]) <==> (Flipped(mode, j) <==> mode == Major)
  {
    OffsetBound(mode, j);
    var k := i + Offset(Intervals(mode), j);
    ChordAtIndex(mode, hasSharps, i, j, k);
    TableShapes(mode, hasSharps, k);
    var base := Table(mode, hasSharps)[k];
    if mode == Major && Flipped(mode, j) {
      assert (base + "m")[|base|] == 'm';
    }
  }

  // ---------------------------------------------------------------------
  // Sorting and deduplication

  /** Non-decreasing in the derived order. */
  predicate Sorted(s: seq<Key>)
  {
    forall i, j | 0 <= i < j < |s| :: KeyLe(s[i], s[j])
  }

  lemma HeadLeast(s: seq<Key>)
    requires Sorted(s) && s != []
    ensures forall y | y in s :: KeyLe(s[0], y)
  {
  }

  lemma SortedPrepend(x: Key, s: seq<Key>)
    requires Sorted(s) && forall y | y in s :: KeyLe(x, y)
    ensures Sorted([x] + s)
  {
    var t := [x] + s;
    forall i, j | 0 <= i < j < |t| ensures KeyLe(t[i], t[j]) {
      if i > 0 {
        assert t[i] == s[i - 1] && t[j] == s[j - 1];
      } else {
        assert t[j] in s;
      }
    }
  }

  /** Insert `x` into a sorted sequence. */
  function Insert(s: seq<Key>, x: Key): (r: seq<Key>)
    requires Sorted(s)
    ensures Sorted(r) && multiset(r) == multiset(s) + multiset{x}
  {
    if s == [] then [x]
    else if KeyLe(x, s[0]) then
      HeadLeast(s);
      LeAll(x, s);
      SortedPrepend(x, s);
      [x] + s
    else
      KeyLeTotal(x, s[0]);
      HeadLeast(s);
      assert s == [s[0]] + s[1..];
      var rest := Insert(s[1..], x);
      assert forall y | y in rest :: y in s || y == x by {
        forall y | y in rest ensures y in s || y == x {
          assert y in multiset(rest);
        }
      }
      SortedPrepend(s[0], rest);
      [s[0]] + rest
  }

  lemma LeAll(x: Key, s: seq<Key>)
    requires s != [] && KeyLe(x, s[0]) && forall y | y in s :: KeyLe(s[0], y)
    ensures forall y | y in s :: KeyLe(x, y)
  {
    forall y | y in s ensures KeyLe(x, y) {
      KeyLeTransitive(x, s[0], y);
    }
  }

  /** The sorted rearrangement that `Vec::sort` produces. */
  function SortKeys(s: seq<Key>): (r: seq<Key>)
    ensures Sorted(r) && multiset(r) == multiset(s)
  {
    if s == [] then []
    else
      assert s == [s[0]] + s[1..];
      Insert(SortKeys(s[1..]), s[0])
  }

  /** A sorted rearrangement is unique, so whatever algorithm `Vec::sort`
      uses, its result is `SortKeys`. */
  lemma {:induction false} SortedUnique(a: seq<Key>, b: seq<Key>)
    requires Sorted(a) && Sorted(b) && multiset(a) == multiset(b)
    ensures a == b
  {
    assert |a| == |multiset(a)| == |multiset(b)| == |b|;
    if a != [] {
      SortedHeads(a, b);
      TailMultiset(a);
      TailMultiset(b);
      SortedUnique(a[1..], b[1..]);
      assert a == [a[0]] + a[1..] && b == [b[0]] + b[1..];
    }
  }

  lemma SortedHeads(a: seq<Key>, b: seq<Key>)
    requires Sorted(a) && Sorted(b) && multiset(a) == multiset(b) && a != [] && b != []
    ensures a[0] == b[0]
  {
    assert a[0] in multiset(b) && b[0] in multiset(a);
    HeadLeast(a);
    HeadLeast(b);
    KeyLeAntisymmetric(a[0], b[0]);
  }

  lemma TailMultiset(a: seq<Key>)
    requires a != []
    ensures multiset(a[1..]) == multiset(a) - multiset{a[0]}
  {
    assert a == [a[0]] + a[1..];
  }

  /** `Vec::dedup_by(|a, b| a.tonic == b.tonic)`: drop every element whose
      tonic equals that of the last element kept. */
  function Dedup(s: seq<Key>): seq<Key>
  {
    if s == [] then []
    else
      var r := Dedup(s[..|s| - 1]);
      if r != [] && r[|r| - 1].tonic == s[|s| - 1].tonic then r
      else r + [s[|s| - 1]]
  }

  function TonicsOf(r: seq<Key>): (t: seq<string>)
    ensures |t| == |r| && forall i | 0 <= i < |r| :: t[i] == r[i].tonic
  {
    seq(|r|, i requires 0 <= i < |r| => r[i].tonic)
  }

  /** `r` holds, in increasing order of tonic, one key for each tonic of
      `s`, namely the least key of `s` with that tonic, and nothing else. */
  predicate LeastPerTonic(r: seq<Key>, s: seq<Key>)
  {
    Increasing(TonicsOf(r)) &&
    (forall i | 0 <= i < |r| :: r[i] in s) &&
    (forall c | c in s :: c.tonic in TonicsOf(r)) &&
    (forall i, c | 0 <= i < |r| && c in s && r[i].tonic == c.tonic :: KeyLe(r[i], c))
  }

  /** Deduplicating a sorted sequence by tonic keeps the least key of each
      tonic. */
  lemma {:induction false} DedupLeast(s: seq<Key>)
    requires Sorted(s)
    ensures LeastPerTonic(Dedup(s), s)
  {
    if s != [] {
      var p, c := s[..|s| - 1], s[|s| - 1];
      assert s == p + [c];
      SortedInit(p, c);
      DedupLeast(p);
      DedupStep(p, c);
    }
  }

  /** One step of `Dedup`: a key no smaller than those before it. */
  lemma DedupStep(p: seq<Key>, c: Key)
    requires LeastPerTonic(Dedup(p), p) && forall y | y in p :: KeyLe(y, c)
    ensures LeastPerTonic(Dedup(p + [c]), p + [c])
  {
    var q := Dedup(p);
    if q != [] && q[|q| - 1].tonic == c.tonic {
      DedupMerges(p, c, q);
    } else {
      DedupAppends(p, c, q);
    }
  }

  /** `Dedup` looks at the last key only. */
  lemma DedupSnoc(p: seq<Key>, c: Key)
    ensures var q := Dedup(p);
      Dedup(p + [c]) == if q != [] && q[|q| - 1].tonic == c.tonic then q else q + [c]
  {
    assert (p + [c])[..|p + [c]| - 1] == p;
  }

  /** Dropping the last key of a sorted sequence leaves it sorted, below that key. */
  lemma SortedInit(p: seq<Key>, c: Key)
    requires Sorted(p + [c])
    ensures Sorted(p)
    ensures forall y | y in p :: KeyLe(y, c)
  {
    var s := p + [c];
    forall i, j | 0 <= i < j < |p| ensures KeyLe(p[i], p[j]) {
      assert p[i] == s[i] && p[j] == s[j];
    }
    forall y | y in p ensures KeyLe(y, c) {
      var k :| 0 <= k < |p| && p[k] == y;
      assert s[k] == y && s[|p|] == c;
    }
  }

  /** The step of `DedupLeast` where the new key shares the last kept tonic. */
  lemma DedupMerges(p: seq<Key>, c: Key, q: seq<Key>)
    requires LeastPerTonic(q, p) && forall y | y in p :: KeyLe(y, c)
    requires q == Dedup(p) && q != [] && q[|q| - 1].tonic == c.tonic
    ensures LeastPerTonic(Dedup(p + [c]), p + [c])
  {
    DedupSnoc(p, c);
    var s := p + [c];
    assert TonicsOf(q)[|q| - 1] == c.tonic;
    forall i | 0 <= i < |q| ensures q[i] in s {
      assert q[i] in p;
    }
    forall d | d in s ensures d.tonic in TonicsOf(q) {
      if d !in p {
        assert d == c;
      }
    }
    forall i, d | 0 <= i < |q| && d in s && q[i].tonic == d.tonic ensures KeyLe(q[i], d) {
      if d !in p {
        assert d == c && q[i] in p;
      }
    }
  }

  /** The step of `DedupLeast` where the new key starts a new tonic. */
  lemma DedupAppends(p: seq<Key>, c: Key, q: seq<Key>)
    requires LeastPerTonic(q, p) && forall y | y in p :: KeyLe(y, c)
    requires q == Dedup(p) && (q == [] || q[|q| - 1].tonic != c.tonic)
    ensures LeastPerTonic(Dedup(p + [c]), p + [c])
  {
    DedupSnoc(p, c);
    assert Dedup(p + [c]) == q + [c];
    NewTonicLeast(p, c, q);
  }

  lemma NewTonicLeast(p: seq<Key>, c: Key, q: seq<Key>)
    requires LeastPerTonic(q, p) && forall y | y in p :: KeyLe(y, c)
    requires q == [] || q[|q| - 1].tonic != c.tonic
    ensures LeastPerTonic(q + [c], p + [c])
  {
    var s, r := p + [c], q + [c];
    NewTonicAbove(p, c, q);
    IncreasingSnoc(q, c);
    forall i | 0 <= i < |r| ensures r[i] in s {
      if i < |q| {
        assert r[i] == q[i] && q[i] in p;
      }
    }
    forall d | d in s ensures d.tonic in TonicsOf(r) {
      if d in p {
        var k :| 0 <= k < |q| && TonicsOf(q)[k] == d.tonic;
        assert TonicsOf(r)[k] == d.tonic;
      } else {
        assert TonicsOf(r)[|q|] == c.tonic;
      }
    }
    forall i, d | 0 <= i < |r| && d in s && r[i].tonic == d.tonic ensures KeyLe(r[i], d) {
      if i < |q| {
        assert r[i] == q[i];
        if d !in p {
          StrLtIrreflexive(c.tonic);
        }
      } else if d in p {
        var k :| 0 <= k < |q| && TonicsOf(q)[k] == d.tonic;
        StrLtIrreflexive(c.tonic);
      }
    }
  }

  /** A key no smaller than all before it, with a new tonic, has the
      greatest tonic so far. */
  lemma NewTonicAbove(p: seq<Key>, c: Key, q: seq<Key>)
    requires LeastPerTonic(q, p) && forall y | y in p :: KeyLe(y, c)
    requires q == [] || q[|q| - 1].tonic != c.tonic
    ensures forall i | 0 <= i < |q| :: StrLt(q[i].tonic, c.tonic)
  {
    forall i | 0 <= i < |q| ensures StrLt(q[i].tonic, c.tonic) {
      var last := q[|q| - 1];
      assert q[i] in p && last in p;
      if i < |q| - 1 {
        assert StrLt(TonicsOf(q)[i], TonicsOf(q)[|q| - 1]);
        StrLtTransitive(q[i].tonic, last.tonic, c.tonic);
      }
    }
  }

  lemma IncreasingSnoc(q: seq<Key>, c: Key)
    requires Increasing(TonicsOf(q))
    requires forall i | 0 <= i < |q| :: StrLt(q[i].tonic, c.tonic)
    ensures Increasing(TonicsOf(q + [c]))
  {
    var r := q + [c];
    forall i, j | 0 <= i < j < |r| ensures StrLt(TonicsOf(r)[i], TonicsOf(r)[j]) {
      if j < |q| {
        assert TonicsOf(q)[i] == r[i].tonic && TonicsOf(q)[j] == r[j].tonic;
      }
    }
  }

  /** The catalogue `init` builds from the vector it is handed. */
  function Catalog(initial: seq<Key>): seq<Key>
  {
    Dedup(SortKeys(initial + Candidates()))
  }

  /** Sorting, then deduplicating by tonic, keeps the least key of each
      tonic and nothing else. */
  lemma SortDedupLeast(s: seq<Key>)
    ensures LeastPerTonic(Dedup(SortKeys(s)), s)
  {
    var sorted := SortKeys(s);
    DedupLeast(sorted);
    forall x ensures x in sorted <==> x in s {
      assert x in sorted <==> x in multiset(sorted);
    }
  }

  /** `init` leaves, sorted by tonic, the least key of every tonic among the
      keys it was handed and the keys it generated, and nothing else. */
  lemma CatalogIsLeastPerTonic(initial: seq<Key>)
    ensures LeastPerTonic(Catalog(initial), initial + Candidates())
  {
    SortDedupLeast(initial + Candidates());
  }

  /** Strictly increasing tonics make a list sorted in the derived order. */
  lemma IncreasingSorted(r: seq<Key>)
    requires Increasing(TonicsOf(r))
    ensures Sorted(r)
  {
    forall i, j | 0 <= i < j < |r| ensures KeyLe(r[i], r[j]) {
      assert StrLt(TonicsOf(r)[i], TonicsOf(r)[j]);
    }
  }

  /** After `init` the vector is sorted and no two keys share a tonic. */
  lemma CatalogSorted(initial: seq<Key>)
    ensures Increasing(TonicsOf(Catalog(initial))) && Sorted(Catalog(initial))
  {
    CatalogIsLeastPerTonic(initial);
    IncreasingSorted(Catalog(initial));
  }

  /** Every key `init` generated, rather than found in the vector, has seven
      chords, the first being its tonic. */
  lemma CatalogShape(initial: seq<Key>)
    ensures forall x | x in Catalog(initial) && x !in initial :: |x.chords| == 7 && x.chords[0] == x.tonic
  {
    var r := Catalog(initial);
    CatalogIsLeastPerTonic(initial);
    forall x | x in r && x !in initial ensures |x.chords| == 7 && x.chords[0] == x.tonic {
      var i :| 0 <= i < |r| && r[i] == x;
      assert x in initial + Candidates();
      CandidateShape(x);
    }
  }

  /** `LeastPerTonic` determines its list, so it specifies `Catalog` fully. */
  lemma LeastPerTonicUnique(r1: seq<Key>, r2: seq<Key>, s: seq<Key>)
    requires LeastPerTonic(r1, s) && LeastPerTonic(r2, s)
    ensures r1 == r2
  {
    forall t ensures t in TonicsOf(r1) <==> t in TonicsOf(r2) {
      if t in TonicsOf(r1) {
        var i :| 0 <= i < |r1| && TonicsOf(r1)[i] == t;
        assert r1[i] in s;
      }
      if t in TonicsOf(r2) {
        var i :| 0 <= i < |r2| && TonicsOf(r2)[i] == t;
        assert r2[i] in s;
      }
    }
    IncreasingUnique(TonicsOf(r1), TonicsOf(r2));
    forall i | 0 <= i < |r1| ensures r1[i] == r2[i] {
      assert TonicsOf(r1)[i] == TonicsOf(r2)[i];
      assert r1[i] in s && r2[i] in s;
      KeyLeAntisymmetric(r1[i], r2[i]);
    }
  }

  /** The tie-break: every tonic present survives, and the key kept for it
      is the least of all keys with that tonic. */
  lemma CatalogEntryForTonic(initial: seq<Key>, c: Key)
    requires c in initial + Candidates()
    ensures exists x | x in Catalog(initial) :: x.tonic == c.tonic
    ensures forall x | x in Catalog(initial) && x.tonic == c.tonic :: KeyLe(x, c)
  {
    var r := Catalog(initial);
    CatalogIsLeastPerTonic(initial);
    var k :| 0 <= k < |r| && TonicsOf(r)[k] == c.tonic;
    assert r[k] in r;
  }

  // ---------------------------------------------------------------------
  // The vector and the procedures of `src/keys.rs`

  /** The caller's `Vec<Key>`. */
  class KeyVec {
    var elems: seq<Key>

    constructor ()
      ensures elems == []
    {
      elems := [];
    }

    method Push(k: Key)
      modifies this
      ensures elems == old(elems) + [k]
    {
      elems := elems + [k];
    }

    /** `Vec::sort`. */
    method Sort()
      modifies this
      ensures elems == SortKeys(old(elems))
      ensures Sorted(elems) && multiset(elems) == multiset(old(elems))
    {
      elems := SortKeys(elems);
    }

    /** `Vec::dedup_by(|a, b| a.tonic == b.tonic)`. */
    method DedupByTonic()
      modifies this
      ensures elems == Dedup(old(elems))
    {
      elems := Dedup(elems);
    }
  }

  /** Whether a tonic is one of the rejected keys of its mode. */
  method IsNotOnTheCircleOfFifths(chord: string, isMajor: bool) returns (result: bool)
    ensures result <==> IsAccidental(chord, isMajor)
  {
    result := false;
    if isMajor {
      for k := 0 to |AccidentalMajorKeys|
        invariant !result && chord !in AccidentalMajorKeys[..k]
      {
        if chord == AccidentalMajorKeys[k] {
          result := true;
          break;
        }
      }
      assert AccidentalMajorKeys[..|AccidentalMajorKeys|] == AccidentalMajorKeys;
    }
    if !isMajor {
      for k := 0 to |AccidentalMinorKeys|
        invariant !result && chord !in AccidentalMinorKeys[..k]
      {
        if chord == AccidentalMinorKeys[k] {
          result := true;
          break;
        }
      }
      assert AccidentalMinorKeys[..|AccidentalMinorKeys|] == AccidentalMinorKeys;
    }
  }

  /** One pass over the major tables: append the key of every tonic that
      passes the filter, its chords built by stepping through the table. */
  method GenerateMajorKeys(keys: KeyVec, hasSharps: bool)
    modifies keys
    ensures keys.elems == old(keys.elems) + Generated(Major, hasSharps, Octave)
  {
    var scale: seq<string> := [];
    for i := 0 to Octave
      invariant keys.elems == old(keys.elems) + Generated(Major, hasSharps, i)
      invariant scale == []
    {
      var idx: nat := 0;
      idx := idx + i;
      var tonic := Table(Major, hasSharps)[idx];
      GeneratedStep(Major, hasSharps, i);
      var skip := IsNotOnTheCircleOfFifths(tonic, true);
      if skip {
        continue;
      }
      for j := 0 to 7
        invariant keys.elems == old(keys.elems) + Generated(Major, hasSharps, i)
        invariant idx == i + Offset(MajorIntervals, j)
        invariant scale == Scale(Major, hasSharps, i)[..j]
      {
        ChordAtIndex(Major, hasSharps, i, j, idx);
        ScaleStep(Major, hasSharps, i, j);
        var currentChord := Table(Major, hasSharps)[idx];
        if j == 1 || j == 2 || j == 5 || j == 6 {
          currentChord := currentChord + "m";
        }
        scale := scale + [currentChord];
        idx := idx + MajorIntervals[j];
      }
      assert scale == Scale(Major, hasSharps, i);
      AppendAssoc(old(keys.elems), Generated(Major, hasSharps, i), GeneratedAt(Major, hasSharps, i));
      keys.Push(Key(tonic, scale));
      scale := [];
    }
  }

  /** One pass over the minor tables; the flipped degrees lose their `m`. */
  method GenerateMinorKeys(keys: KeyVec, hasSharps: bool)
    modifies keys
    ensures keys.elems == old(keys.elems) + Generated(Minor, hasSharps, Octave)
  {
    var scale: seq<string> := [];
    for i := 0 to Octave
      invariant keys.elems == old(keys.elems) + Generated(Minor, hasSharps, i)
      invariant scale == []
    {
      var idx: nat := 0;
      idx := idx + i;
      var tonic := Table(Minor, hasSharps)[idx];
      GeneratedStep(Minor, hasSharps, i);
      var skip := IsNotOnTheCircleOfFifths(tonic, false);
      if skip {
        continue;
      }
      for j := 0 to 7
        invariant keys.elems == old(keys.elems) + Generated(Minor, hasSharps, i)
        invariant idx == i + Offset(MinorIntervals, j)
        invariant scale == Scale(Minor, hasSharps, i)[..j]
      {
        ChordAtIndex(Minor, hasSharps, i, j, idx);
        ScaleStep(Minor, hasSharps, i, j);
        var currentChord := Table(Minor, hasSharps)[idx];
        if j == 2 || j == 5 || j == 6 {
          if currentChord != [] {
            currentChord := currentChord[..|currentChord| - 1];
          }
        }
        scale := scale + [currentChord];
        idx := idx + MinorIntervals[j];
      }
      assert scale == Scale(Minor, hasSharps, i);
      AppendAssoc(old(keys.elems), Generated(Minor, hasSharps, i), GeneratedAt(Minor, hasSharps, i));
      keys.Push(Key(tonic, scale));
      scale := [];
    }
  }

  method RemoveDuplicateKeys(keys: KeyVec)
    modifies keys
    ensures keys.elems == Dedup(SortKeys(old(keys.elems)))
  {
    keys.Sort();
    keys.DedupByTonic();
  }

  /** `init`: the four generation passes, then sort and deduplicate. */
  method Init(keys: KeyVec)
    modifies keys
    ensures keys.elems == Catalog(old(keys.elems))
  {
    GenerateMajorKeys(keys, true);
    GenerateMajorKeys(keys, false);
    GenerateMinorKeys(keys, true);
    GenerateMinorKeys(keys, false);
    AppendPasses(old(keys.elems), Generated(Major, true, Octave), Generated(Major, false, Octave),
      Generated(Minor, true, Octave), Generated(Minor, false, Octave));
    RemoveDuplicateKeys(keys);
  }

  lemma AppendAssoc(a: seq<Key>, b: seq<Key>, c: seq<Key>)
    ensures a + b + c == a + (b + c)
  {
  }

  lemma AppendPasses(s: seq<Key>, a: seq<Key>, b: seq<Key>, c: seq<Key>, d: seq<Key>)
    ensures s + a + b + c + d == s + (a + b + c + d)
  {
  }
}
