/** Concrete facts about the catalogue `init` builds from an empty vector,
    matching the expectations of `src/keys.rs` on its result: thirty keys,
    exactly the circle-of-fifths tonics, and the chord lists of the keys at
    positions 0, 6, 9 and 29. */
module FreshCatalog {
  import opened Order
  import opened Keys

  /** The tonics the catalogue holds, in the order it holds them. */
  const Tonics: seq<string> := [
    "A", "A#m", "Ab", "Abm", "Am", "B", "Bb", "Bbm", "Bm", "C",
    "C#", "C#m", "Cb", "Cm", "D", "D#m", "Db", "Dm", "E", "Eb",
    "Ebm", "Em", "F", "F#", "F#m", "Fm", "G", "G#m", "Gb", "Gm"]

  /** For each entry of `Tonics`, a table and position that generates it. */
  const Origins: seq<(Mode, bool, nat)> := [
    (Major, true, 9), (Minor, true, 10), (Major, false, 8), (Minor, false, 8), (Minor, true, 9),
    (Major, true, 11), (Major, false, 10), (Minor, false, 10), (Minor, true, 11), (Major, true, 0),
    (Major, true, 1), (Minor, true, 1), (Major, false, 11), (Minor, true, 0), (Major, true, 2),
    (Minor, true, 3), (Major, false, 1), (Minor, true, 2), (Major, true, 4), (Major, false, 3),
    (Minor, false, 3), (Minor, true, 4), (Major, true, 5), (Major, true, 6), (Minor, true, 6),
    (Minor, true, 5), (Major, true, 7), (Minor, true, 8), (Major, false, 6), (Minor, true, 7)]

  /** The catalogue of a fresh `init`. */
  function Fresh(): seq<Key>
  {
    Catalog([])
  }

  /** Neighbours of `Tonics` from position `lo` to `hi` are in order. */
  predicate NeighboursInOrder(lo: nat, hi: nat)
    requires lo <= hi < 30
  {
    forall i | lo <= i < hi :: StrLt(Tonics[i], Tonics[i + 1])
  }

  lemma TonicsInOrder0() ensures NeighboursInOrder(0, 3) {}
  lemma TonicsInOrder1() ensures NeighboursInOrder(3, 6) {}
  lemma TonicsInOrder2() ensures NeighboursInOrder(6, 9) {}
  lemma TonicsInOrder3() ensures NeighboursInOrder(9, 12) {}
  lemma TonicsInOrder4() ensures NeighboursInOrder(12, 15) {}
  lemma TonicsInOrder5() ensures NeighboursInOrder(15, 18) {}
  lemma TonicsInOrder6() ensures NeighboursInOrder(18, 21) {}
  lemma TonicsInOrder7() ensures NeighboursInOrder(21, 24) {}
  lemma TonicsInOrder8() ensures NeighboursInOrder(24, 27) {}
  lemma TonicsInOrder9() ensures NeighboursInOrder(27, 29) {}

  lemma TonicsIncreasing()
    ensures Increasing(Tonics)
  {
    TonicsInOrder0();
    TonicsInOrder1();
    TonicsInOrder2();
    TonicsInOrder3();
    TonicsInOrder4();
    TonicsInOrder5();
    TonicsInOrder6();
    TonicsInOrder7();
    TonicsInOrder8();
    TonicsInOrder9();
    IncreasingFromNeighbours(Tonics);
  }

  /** Every tonic that passes the filter in one of the four passes is listed. */
  lemma PassTonicsListed(mode: Mode, hasSharps: bool, i: nat)
    requires i < 12 && !IsAccidental(Table(mode, hasSharps)[i], mode == Major)
    ensures Table(mode, hasSharps)[i] in Tonics
  {
    match mode
    case Major =>
      if hasSharps {
        assert forall k | 0 <= k < 12 && !IsAccidental(MajorSharps[k], true) :: MajorSharps[k] in Tonics;
      } else {
        assert forall k | 0 <= k < 12 && !IsAccidental(MajorFlats[k], true) :: MajorFlats[k] in Tonics;
      }
    case Minor =>
      if hasSharps {
        assert forall k | 0 <= k < 12 :: MinorSharps[k] in Tonics;
      } else {
        assert forall k | 0 <= k < 12 && !IsAccidental(MinorFlats[k], false) :: MinorFlats[k] in Tonics;
      }
  }

  /** `Origins[k]` names a table position holding tonic `Tonics[k]`. */
  predicate OriginYields(k: nat)
    requires k < 30
  {
    var (mode, hasSharps, i) := Origins[k];
    i < 12 && Table(mode, hasSharps)[i] == Tonics[k]
  }

  lemma OriginsYield0()
    ensures forall k | 0 <= k < 3 :: OriginYields(k)
  {
  }

  lemma OriginsYield1()
    ensures forall k | 3 <= k < 6 :: OriginYields(k)
  {
  }

  lemma OriginsYield2()
    ensures forall k | 6 <= k < 9 :: OriginYields(k)
  {
  }

  lemma OriginsYield3()
    ensures forall k | 9 <= k < 12 :: OriginYields(k)
  {
  }

  lemma OriginsYield4()
    ensures forall k | 12 <= k < 15 :: OriginYields(k)
  {
  }

  lemma OriginsYield5()
    ensures forall k | 15 <= k < 18 :: OriginYields(k)
  {
  }

  lemma OriginsYield6()
    ensures forall k | 18 <= k < 21 :: OriginYields(k)
  {
  }

  lemma OriginsYield7()
    ensures forall k | 21 <= k < 24 :: OriginYields(k)
  {
  }

  lemma OriginsYield8()
    ensures forall k | 24 <= k < 27 :: OriginYields(k)
  {
  }

  lemma OriginsYield9()
    ensures forall k | 27 <= k < 30 :: OriginYields(k)
  {
  }

  /** Every listed tonic is generated. */
  lemma TonicGenerated(k: nat)
    requires k < 30
    ensures exists c | c in Candidates() :: c.tonic == Tonics[k]
  {
    OriginsYield0();
    OriginsYield1();
    OriginsYield2();
    OriginsYield3();
    OriginsYield4();
    OriginsYield5();
    OriginsYield6();
    OriginsYield7();
    OriginsYield8();
    OriginsYield9();
    assert OriginYields(k);
    RejectsAvoided0();
    RejectsAvoided1();
    RejectsAvoided2();
    RejectsAvoided3();
    RejectsAvoided4();
    assert AvoidsRejects(Tonics[k]);
    var (mode, hasSharps, i) := Origins[k];
    var c := Key(Table(mode, hasSharps)[i], Scale(mode, hasSharps, i));
    CandidateMembers(c);
    assert GeneratedBy(c, mode, hasSharps, i);
  }

  /** Every tonic of a catalogue built from the candidates alone is listed. */
  lemma FreshTonicsListed(r: seq<Key>)
    requires LeastPerTonic(r, Candidates())
    ensures forall t | t in TonicsOf(r) :: t in Tonics
  {
    forall t | t in TonicsOf(r) ensures t in Tonics {
      var i :| 0 <= i < |r| && TonicsOf(r)[i] == t;
      CandidateMembers(r[i]);
      var mode: Mode, hasSharps: bool, p: nat :| GeneratedBy(r[i], mode, hasSharps, p);
      PassTonicsListed(mode, hasSharps, p);
    }
  }

  /** Every listed tonic is in such a catalogue. */
  lemma ListedTonicsFresh(r: seq<Key>)
    requires LeastPerTonic(r, Candidates())
    ensures forall t | t in Tonics :: t in TonicsOf(r)
  {
    forall t | t in Tonics ensures t in TonicsOf(r) {
      var k :| 0 <= k < 30 && Tonics[k] == t;
      TonicGenerated(k);
    }
  }

  /** The fresh catalogue holds exactly the listed tonics, in this order:
      each circle-of-fifths spelling once and no other. */
  lemma FreshTonics()
    ensures TonicsOf(Fresh()) == Tonics
  {
    var r := Fresh();
    CatalogIsLeastPerTonic([]);
    assert [] + Candidates() == Candidates();
    FreshTonicsListed(r);
    ListedTonicsFresh(r);
    TonicsIncreasing();
    IncreasingUnique(TonicsOf(r), Tonics);
  }

  /** A fresh `init` yields thirty keys. */
  lemma FreshSize()
    ensures |Fresh()| == 30
  {
    FreshTonics();
  }

  lemma ListedTonicsPresent()
    ensures "Cb" in Tonics && "Gm" in Tonics && "Bbm" in Tonics
  {
    assert Tonics[12] == "Cb" && Tonics[29] == "Gm" && Tonics[7] == "Bbm";
  }

  lemma UnlistedFb() ensures "Fb" !in Tonics {}
  lemma UnlistedGSharp() ensures "G#" !in Tonics {}
  lemma UnlistedCbm() ensures "Cbm" !in Tonics {}
  lemma UnlistedESharpm() ensures "E#m" !in Tonics {}

  /** The circle-of-fifths keys the Rust tests look for are present, and the
      accidental ones they look for are absent. */
  lemma FreshTonicPresence()
    ensures "Cb" in TonicsOf(Fresh()) && "Gm" in TonicsOf(Fresh()) && "Bbm" in TonicsOf(Fresh())
    ensures "Fb" !in TonicsOf(Fresh()) && "G#" !in TonicsOf(Fresh())
    ensures "Cbm" !in TonicsOf(Fresh()) && "E#m" !in TonicsOf(Fresh())
  {
    FreshTonics();
    ListedTonicsPresent();
    UnlistedFb();
    UnlistedGSharp();
    UnlistedCbm();
    UnlistedESharpm();
  }

  /** `t` is on neither reject list. */
  predicate AvoidsRejects(t: string)
  {
    t !in AccidentalMajorKeys && t !in AccidentalMinorKeys
  }

  lemma RejectsAvoided0() ensures forall k | 0 <= k < 6 :: AvoidsRejects(Tonics[k]) {}
  lemma RejectsAvoided1() ensures forall k | 6 <= k < 12 :: AvoidsRejects(Tonics[k]) {}
  lemma RejectsAvoided2() ensures forall k | 12 <= k < 18 :: AvoidsRejects(Tonics[k]) {}
  lemma RejectsAvoided3() ensures forall k | 18 <= k < 24 :: AvoidsRejects(Tonics[k]) {}
  lemma RejectsAvoided4() ensures forall k | 24 <= k < 30 :: AvoidsRejects(Tonics[k]) {}

  /** No key of the fresh catalogue has a tonic from either reject list. */
  lemma FreshAvoidsRejects()
    ensures forall x | x in Fresh() :: AvoidsRejects(x.tonic)
  {
    FreshTonics();
    RejectsAvoided0();
    RejectsAvoided1();
    RejectsAvoided2();
    RejectsAvoided3();
    RejectsAvoided4();
    forall x | x in Fresh() ensures AvoidsRejects(x.tonic) {
      var i :| 0 <= i < |Fresh()| && Fresh()[i] == x;
      assert TonicsOf(Fresh())[i] == x.tonic;
    }
  }

  /** Every key of the fresh catalogue has seven chords, the first its tonic. */
  lemma FreshShape()
    ensures forall x | x in Fresh() :: |x.chords| == 7 && x.chords[0] == x.tonic
  {
    CatalogShape([]);
  }

  // ---------------------------------------------------------------------
  // The keys at the positions the Rust tests inspect

  /** What `LeastPerTonic` says about position `n` of the fresh catalogue. */
  lemma FreshEntry(n: nat)
    requires n < 30
    ensures |Fresh()| == 30 && Fresh()[n].tonic == Tonics[n]
    ensures exists mode: Mode, hasSharps: bool, i: nat :: GeneratedBy(Fresh()[n], mode, hasSharps, i)
    ensures forall c | c in Candidates() && c.tonic == Tonics[n] :: KeyLe(Fresh()[n], c)
  {
    var r := Fresh();
    FreshTonics();
    assert TonicsOf(r)[n] == r[n].tonic;
    CatalogIsLeastPerTonic([]);
    assert [] + Candidates() == Candidates();
    assert r[n] in Candidates();
    CandidateMembers(r[n]);
  }

  /** The least candidate of a tonic that only the table positions `w` and
      `l` generate, when the chords of `w` sort no later than those of `l`,
      carries the chords of `w`. */
  lemma Winner(x: Key, w: (Mode, bool, nat), l: (Mode, bool, nat))
    requires w.2 < 12 && l.2 < 12 && x.tonic == Table(w.0, w.1)[w.2]
    requires exists mode: Mode, hasSharps: bool, i: nat :: GeneratedBy(x, mode, hasSharps, i)
    requires OnlyAt(x.tonic, w, l) && !IsAccidental(x.tonic, w.0 == Major)
    requires forall c | c in Candidates() && c.tonic == x.tonic :: KeyLe(x, c)
    requires Scale(w.0, w.1, w.2) == Scale(l.0, l.1, l.2) || ListLt(Scale(w.0, w.1, w.2), Scale(l.0, l.1, l.2))
    ensures x.chords == Scale(w.0, w.1, w.2)
  {
    var winner := Key(x.tonic, Scale(w.0, w.1, w.2));
    assert GeneratedBy(winner, w.0, w.1, w.2);
    CandidateMembers(winner);
    assert KeyLe(x, winner);
    var mode: Mode, hasSharps: bool, i: nat :| GeneratedBy(x, mode, hasSharps, i);
    if (mode, hasSharps, i) == l {
      assert KeyLe(winner, x);
      KeyLeAntisymmetric(x, winner);
    }
  }

  /** A scale equals a literal list once its seven entries do. */
  lemma ScaleIs(mode: Mode, hasSharps: bool, i: nat, chords: seq<string>)
    requires i < 12 && |chords| == 7
    requires forall j | 0 <= j < 7 :: Scale(mode, hasSharps, i)[j] == chords[j]
    ensures Scale(mode, hasSharps, i) == chords
  {
  }

  lemma OffsetValues()
    ensures Offset(MajorIntervals, 1) == 2 && Offset(MajorIntervals, 2) == 4 &&
      Offset(MajorIntervals, 3) == 5 && Offset(MajorIntervals, 4) == 7 &&
      Offset(MajorIntervals, 5) == 9 && Offset(MajorIntervals, 6) == 11
    ensures Offset(MinorIntervals, 1) == 2 && Offset(MinorIntervals, 2) == 3 &&
      Offset(MinorIntervals, 3) == 5 && Offset(MinorIntervals, 4) == 7 &&
      Offset(MinorIntervals, 5) == 8 && Offset(MinorIntervals, 6) == 10
  {
  }

  /** The positions of the tables that hold tonic `t`. */
  predicate OnlyAt(t: string, w: (Mode, bool, nat), l: (Mode, bool, nat))
  {
    forall mode: Mode, hasSharps: bool, i: nat | i < 12 && Table(mode, hasSharps)[i] == t ::
      (mode, hasSharps, i) == w || (mode, hasSharps, i) == l
  }

  /** The same, for one table. */
  predicate OnlyAtIn(mode: Mode, hasSharps: bool, t: string, w: (Mode, bool, nat), l: (Mode, bool, nat))
  {
    forall i: nat | i < 12 && Table(mode, hasSharps)[i] == t ::
      (mode, hasSharps, i) == w || (mode, hasSharps, i) == l
  }

  lemma OnlyAtTables(t: string, w: (Mode, bool, nat), l: (Mode, bool, nat))
    requires OnlyAtIn(Major, true, t, w, l) && OnlyAtIn(Major, false, t, w, l)
    requires OnlyAtIn(Minor, true, t, w, l) && OnlyAtIn(Minor, false, t, w, l)
    ensures OnlyAt(t, w, l)
  {
    forall mode: Mode, hasSharps: bool, i: nat | i < 12 && Table(mode, hasSharps)[i] == t
      ensures (mode, hasSharps, i) == w || (mode, hasSharps, i) == l
    {
      assert OnlyAtIn(mode, hasSharps, t, w, l);
    }
  }

  /** A major: the flat table spells the second degree Bm as Cbm, which sorts later. */
  lemma TonicOfA()
    ensures Table(Major, true)[9] == Tonics[0] && !IsAccidental(Tonics[0], true)
  {
  }

  lemma OnlyAtA()
    ensures OnlyAt(Tonics[0], (Major, true, 9), (Major, false, 9))
  {
    var w, l := (Major, true, 9), (Major, false, 9);
    assert Tonics[0] == "A";
    assert OnlyAtIn(Major, true, "A", w, l);
    assert OnlyAtIn(Major, false, "A", w, l);
    assert OnlyAtIn(Minor, true, "A", w, l);
    assert OnlyAtIn(Minor, false, "A", w, l);
    OnlyAtTables("A", w, l);
  }

  lemma ScaleOfA()
    ensures Scale(Major, true, 9) == ["A", "Bm", "C#m", "D", "E", "F#m", "G#m"]
  {
    OffsetValues();
    ScaleIs(Major, true, 9, ["A", "Bm", "C#m", "D", "E", "F#m", "G#m"]);
  }

  lemma RivalOfA()
    ensures Scale(Major, false, 9) == ["A", "Cbm", "Dbm", "D", "Fb", "Gbm", "Abm"]
  {
    OffsetValues();
    ScaleIs(Major, false, 9, ["A", "Cbm", "Dbm", "D", "Fb", "Gbm", "Abm"]);
  }

  lemma TieOfA()
    ensures ListLt(Scale(Major, true, 9), Scale(Major, false, 9))
  {
    ScaleOfA();
    RivalOfA();
    ListLtAt(["A", "Bm", "C#m", "D", "E", "F#m", "G#m"], ["A", "Cbm", "Dbm", "D", "Fb", "Gbm", "Abm"], 1);
  }

  /** B-flat major comes from the flat table only. */
  lemma TonicOfBb()
    ensures Table(Major, false)[10] == Tonics[6] && !IsAccidental(Tonics[6], true)
  {
  }

  lemma OnlyAtBb()
    ensures OnlyAt(Tonics[6], (Major, false, 10), (Major, false, 10))
  {
    var w, l := (Major, false, 10), (Major, false, 10);
    assert Tonics[6] == "Bb";
    assert OnlyAtIn(Major, true, "Bb", w, l);
    assert OnlyAtIn(Major, false, "Bb", w, l);
    assert OnlyAtIn(Minor, true, "Bb", w, l);
    assert OnlyAtIn(Minor, false, "Bb", w, l);
    OnlyAtTables("Bb", w, l);
  }

  lemma ScaleOfBb()
    ensures Scale(Major, false, 10) == ["Bb", "Cm", "Dm", "Eb", "F", "Gm", "Am"]
  {
    OffsetValues();
    ScaleIs(Major, false, 10, ["Bb", "Cm", "Dm", "Eb", "F", "Gm", "Am"]);
  }

  /** C major: the flat table spells the third degree Em as Fbm. */
  lemma TonicOfC()
    ensures Table(Major, true)[0] == Tonics[9] && !IsAccidental(Tonics[9], true)
  {
  }

  lemma OnlyAtC()
    ensures OnlyAt(Tonics[9], (Major, true, 0), (Major, false, 0))
  {
    var w, l := (Major, true, 0), (Major, false, 0);
    assert Tonics[9] == "C";
    assert OnlyAtIn(Major, true, "C", w, l);
    assert OnlyAtIn(Major, false, "C", w, l);
    assert OnlyAtIn(Minor, true, "C", w, l);
    assert OnlyAtIn(Minor, false, "C", w, l);
    OnlyAtTables("C", w, l);
  }

  lemma ScaleOfC()
    ensures Scale(Major, true, 0) == ["C", "Dm", "Em", "F", "G", "Am", "Bm"]
  {
    OffsetValues();
    ScaleIs(Major, true, 0, ["C", "Dm", "Em", "F", "G", "Am", "Bm"]);
  }

  lemma RivalOfC()
    ensures Scale(Major, false, 0) == ["C", "Dm", "Fbm", "F", "G", "Am", "Cbm"]
  {
    OffsetValues();
    ScaleIs(Major, false, 0, ["C", "Dm", "Fbm", "F", "G", "Am", "Cbm"]);
  }

  lemma TieOfC()
    ensures ListLt(Scale(Major, true, 0), Scale(Major, false, 0))
  {
    ScaleOfC();
    RivalOfC();
    ListLtAt(["C", "Dm", "Em", "F", "G", "Am", "Bm"], ["C", "Dm", "Fbm", "F", "G", "Am", "Cbm"], 2);
  }

  /** G minor: the sharp table's A# sorts before the flat table's Bb. */
  lemma TonicOfGm()
    ensures Table(Minor, true)[7] == Tonics[29] && !IsAccidental(Tonics[29], false)
  {
  }

  lemma OnlyAtGm()
    ensures OnlyAt(Tonics[29], (Minor, true, 7), (Minor, false, 7))
  {
    var w, l := (Minor, true, 7), (Minor, false, 7);
    assert Tonics[29] == "Gm";
    assert OnlyAtIn(Major, true, "Gm", w, l);
    assert OnlyAtIn(Major, false, "Gm", w, l);
    assert OnlyAtIn(Minor, true, "Gm", w, l);
    assert OnlyAtIn(Minor, false, "Gm", w, l);
    OnlyAtTables("Gm", w, l);
  }

  lemma ScaleOfGm()
    ensures Scale(Minor, true, 7) == ["Gm", "Am", "A#", "Cm", "Dm", "D#", "F"]
  {
    OffsetValues();
    ScaleIs(Minor, true, 7, ["Gm", "Am", "A#", "Cm", "Dm", "D#", "F"]);
  }

  lemma RivalOfGm()
    ensures Scale(Minor, false, 7) == ["Gm", "Am", "Bb", "Cm", "Dm", "Eb", "F"]
  {
    OffsetValues();
    ScaleIs(Minor, false, 7, ["Gm", "Am", "Bb", "Cm", "Dm", "Eb", "F"]);
  }

  lemma TieOfGm()
    ensures ListLt(Scale(Minor, true, 7), Scale(Minor, false, 7))
  {
    ScaleOfGm();
    RivalOfGm();
    ListLtAt(["Gm", "Am", "A#", "Cm", "Dm", "D#", "F"], ["Gm", "Am", "Bb", "Cm", "Dm", "Eb", "F"], 2);
  }

  /** The keys the Rust test `keys_should_contain_diatonic_chords` inspects. */
  lemma FreshKey0()
    ensures |Fresh()| == 30 && Fresh()[0].chords == ["A", "Bm", "C#m", "D", "E", "F#m", "G#m"]
  {
    FreshEntry(0);
    TonicOfA();
    OnlyAtA();
    ScaleOfA();
    TieOfA();
    Winner(Fresh()[0], (Major, true, 9), (Major, false, 9));
  }

  lemma FreshKey6()
    ensures |Fresh()| == 30 && Fresh()[6].chords == ["Bb", "Cm", "Dm", "Eb", "F", "Gm", "Am"]
  {
    FreshEntry(6);
    TonicOfBb();
    OnlyAtBb();
    ScaleOfBb();
    Winner(Fresh()[6], (Major, false, 10), (Major, false, 10));
  }

  lemma FreshKey9()
    ensures |Fresh()| == 30 && Fresh()[9].chords == ["C", "Dm", "Em", "F", "G", "Am", "Bm"]
  {
    FreshEntry(9);
    TonicOfC();
    OnlyAtC();
    ScaleOfC();
    TieOfC();
    Winner(Fresh()[9], (Major, true, 0), (Major, false, 0));
  }

  lemma FreshKey29()
    ensures |Fresh()| == 30 && Fresh()[29].chords == ["Gm", "Am", "A#", "Cm", "Dm", "D#", "F"]
  {
    FreshEntry(29);
    TonicOfGm();
    OnlyAtGm();
    ScaleOfGm();
    TieOfGm();
    Winner(Fresh()[29], (Minor, true, 7), (Minor, false, 7));
  }
}
