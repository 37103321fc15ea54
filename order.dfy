/** Rust's ordering on `str` and on `Vec<String>`, as the derived `Ord` of
    `Key` uses them.

    A Rust string compares byte-wise on its UTF-8 encoding, which orders
    code points the same way as comparing the characters themselves; a vector
    compares lexicographically, element by element, a proper prefix being
    smaller. */
module Order {

  /** `a < b` on Rust strings. */
  predicate StrLt(a: string, b: string)
  {
    if a == [] then b != []
    else if b == [] then false
    else if a[0] != b[0] then a[0] < b[0]
    else StrLt(a[1..], b[1..])
  }

  lemma {:induction false} StrLtIrreflexive(a: string)
    ensures !StrLt(a, a)
  {
    if a != [] {
      StrLtIrreflexive(a[1..]);
    }
  }

  lemma {:induction false} StrLtTransitive(a: string, b: string, c: string)
    requires StrLt(a, b) && StrLt(b, c)
    ensures StrLt(a, c)
  {
    if a != [] && a[0] == b[0] && b[0] == c[0] {
      StrLtTransitive(a[1..], b[1..], c[1..]);
    }
  }

  lemma {:induction false} StrLtTotal(a: string, b: string)
    ensures a == b || StrLt(a, b) || StrLt(b, a)
  {
    if a != [] && b != [] && a[0] == b[0] {
      StrLtTotal(a[1..], b[1..]);
      if a[1..] == b[1..] {
        assert a == [a[0]] + a[1..] && b == [b[0]] + b[1..];
      }
    }
  }

  lemma StrLtAsymmetric(a: string, b: string)
    requires StrLt(a, b)
    ensures !StrLt(b, a)
  {
    if StrLt(b, a) {
      StrLtTransitive(a, b, a);
      StrLtIrreflexive(a);
    }
  }

  /** `a < b` on `Vec<String>`: lexicographic in `StrLt`. */
  predicate ListLt(a: seq<string>, b: seq<string>)
  {
    if a == [] then b != []
    else if b == [] then false
    else if a[0] != b[0] then StrLt(a[0], b[0])
    else ListLt(a[1..], b[1..])
  }

  lemma {:induction false} ListLtIrreflexive(a: seq<string>)
    ensures !ListLt(a, a)
  {
    if a != [] {
      ListLtIrreflexive(a[1..]);
    }
  }

  lemma {:induction false} ListLtTransitive(a: seq<string>, b: seq<string>, c: seq<string>)
    requires ListLt(a, b) && ListLt(b, c)
    ensures ListLt(a, c)
  {
    if a != [] && b != [] && c != [] {
      if a[0] == b[0] && b[0] == c[0] {
        ListLtTransitive(a[1..], b[1..], c[1..]);
      } else if a[0] != b[0] && b[0] != c[0] {
        StrLtTransitive(a[0], b[0], c[0]);
        if a[0] == c[0] {
          StrLtIrreflexive(a[0]);
        }
      }
    }
  }

  lemma {:induction false} ListLtTotal(a: seq<string>, b: seq<string>)
    ensures a == b || ListLt(a, b) || ListLt(b, a)
  {
    if a != [] && b != [] {
      if a[0] == b[0] {
        ListLtTotal(a[1..], b[1..]);
        if a[1..] == b[1..] {
          assert a == [a[0]] + a[1..] && b == [b[0]] + b[1..];
        }
      } else {
        StrLtTotal(a[0], b[0]);
      }
    }
  }

  /** Two lists that agree before position `k` and differ there compare as
      their entries at `k` do. */
  lemma {:induction false} ListLtAt(a: seq<string>, b: seq<string>, k: nat)
    requires k < |a| && k < |b| && a[..k] == b[..k] && StrLt(a[k], b[k])
    ensures ListLt(a, b)
  {
    if k == 0 {
      if a[0] == b[0] {
        StrLtIrreflexive(a[0]);
      }
    } else {
      assert a[0] == a[..k][0] && b[0] == b[..k][0];
      assert a[1..][..k - 1] == a[..k][1..];
      assert b[1..][..k - 1] == b[..k][1..];
      ListLtAt(a[1..], b[1..], k - 1);
    }
  }

  /** Strictly increasing in `StrLt`; in particular free of duplicates. */
  predicate Increasing(s: seq<string>)
  {
    forall i, j | 0 <= i < j < |s| :: StrLt(s[i], s[j])
  }

  /** Checking neighbours is enough. */
  lemma {:induction false} IncreasingFromNeighbours(s: seq<string>)
    requires forall i | 0 <= i < |s| - 1 :: StrLt(s[i], s[i + 1])
    ensures Increasing(s)
  {
    if |s| > 1 {
      var t := s[1..];
      assert forall i | 0 <= i < |t| - 1 :: StrLt(t[i], t[i + 1]) by {
        forall i | 0 <= i < |t| - 1 ensures StrLt(t[i], t[i + 1]) {
          assert t[i] == s[i + 1] && t[i + 1] == s[i + 2];
        }
      }
      IncreasingFromNeighbours(t);
      forall i, j | 0 <= i < j < |s| ensures StrLt(s[i], s[j]) {
        if i == 0 {
          if j > 1 {
            assert s[1] == t[0] && s[j] == t[j - 1];
            StrLtTransitive(s[0], s[1], s[j]);
          }
        } else {
          assert s[i] == t[i - 1] && s[j] == t[j - 1];
        }
      }
    }
  }

  /** A strictly increasing sequence is determined by the values it holds. */
  lemma {:induction false} IncreasingUnique(a: seq<string>, b: seq<string>)
    requires Increasing(a) && Increasing(b)
    requires forall x :: x in a <==> x in b
    ensures a == b
  {
    if a != [] {
      assert a[0] in b;
      var k :| 0 <= k < |b| && b[k] == a[0];
      assert b[0] in a;
      var m :| 0 <= m < |a| && a[m] == b[0];
      if k != 0 {
        if m == 0 {
          StrLtIrreflexive(b[0]);
        } else {
          StrLtAsymmetric(a[0], a[m]);
        }
        assert false;
      }
      forall x ensures x in a[1..] <==> x in b[1..] {
        InTail(a, x);
        InTail(b, x);
      }
      IncreasingUnique(a[1..], b[1..]);
      assert a == [a[0]] + a[1..] && b == [b[0]] + b[1..];
    } else {
      HeadIn(b);
    }
  }

  /** A nonempty sequence holds its head. */
  lemma HeadIn(s: seq<string>)
    ensures s == [] || s[0] in s
  {
  }

  /** In a strictly increasing sequence the tail holds everything but the head. */
  lemma InTail(s: seq<string>, x: string)
    requires Increasing(s) && s != []
    ensures x in s[1..] <==> x in s && x != s[0]
  {
    if x in s[1..] {
      var i :| 0 <= i < |s[1..]| && s[1..][i] == x;
      assert s[i + 1] == x;
      assert StrLt(s[0], s[i + 1]);
      if x == s[0] {
        StrLtIrreflexive(x);
      }
    }
    if x in s && x != s[0] {
      var i :| 0 <= i < |s| && s[i] == x;
      assert i != 0;
      assert s[1..][i - 1] == x;
    }
  }
}
