/** The order in which open sessions are listed: sorted in place, newest first. */
module SessionSort {
  import opened DiskModel

  /** Go's order on strings. */
  predicate Less(a: string, b: string)
    decreases a
  {
    b != "" && (a == "" || a[0] < b[0] || (a[0] == b[0] && Less(a[1..], b[1..])))
  }

  lemma {:induction false} LessIsTotalOrder(a: string, b: string, c: string)
    ensures !Less(a, a)
    ensures Less(a, b) && Less(b, c) ==> Less(a, c)
    ensures Less(a, b) || Less(b, a) || a == b
    decreases a
  {
    if a != "" {
      LessIsTotalOrder(a[1..], if b == "" then "" else b[1..], if c == "" then "" else c[1..]);
      if b != "" && a[0] == b[0] && a[1..] == b[1..] {
        assert a == [a[0]] + a[1..] == b;
      }
    }
  }

  /** The first difference decides: a smaller character, or the end of the string. */
  lemma {:induction false} LessIff(a: string, b: string)
    ensures Less(a, b) <==>
              exists n | 0 <= n <= |a| && n < |b| :: a[..n] == b[..n] && (n == |a| || a[n] < b[n])
    decreases a
  {
    if a == "" || b == "" {
      if b != "" {
        assert a[..0] == b[..0] && 0 == |a|;
      }
    } else {
      LessIff(a[1..], b[1..]);
      if Less(a, b) {
        if a[0] == b[0] {
          var m :| && 0 <= m <= |a[1..]| && m < |b[1..]| && a[1..][..m] == b[1..][..m]
                   && (m == |a[1..]| || a[1..][m] < b[1..][m]);
          assert a[..m + 1] == [a[0]] + a[1..][..m] && b[..m + 1] == [b[0]] + b[1..][..m];
        } else {
          assert a[..0] == b[..0];
        }
      }
      if n :| 0 <= n <= |a| && n < |b| && a[..n] == b[..n] && (n == |a| || a[n] < b[n]) {
        if n > 0 {
          assert a[..n][0] == b[..n][0];
          assert a[1..][..n - 1] == a[..n][1..] && b[1..][..n - 1] == b[..n][1..];
        }
      }
    }
  }

  /** Later activity first; the identifier decides between equal times. */
  predicate Before(x: Session, y: Session) {
    x.updatedAt > y.updatedAt || (x.updatedAt == y.updatedAt && Less(x.id.text, y.id.text))
  }

  lemma NotBeforeIsTransitive(x: Session, y: Session, z: Session)
    requires !Before(y, x) && !Before(z, y)
    ensures !Before(z, x)
  {
    LessIsTotalOrder(z.id.text, x.id.text, y.id.text);
    LessIsTotalOrder(y.id.text, z.id.text, x.id.text);
    LessIsTotalOrder(x.id.text, y.id.text, z.id.text);
  }

  predicate Sorted(s: seq<Session>) {
    forall i, j | 0 <= i < j < |s| :: !Before(s[j], s[i])
  }

  predicate DistinctIds(s: seq<Session>) {
    forall i, j | 0 <= i < j < |s| :: s[i].id != s[j].id
  }

  /** Sorted but for the element at hole, which is on its way down. */
  predicate SortedBut(s: seq<Session>, n: nat, hole: nat)
    requires n <= |s|
  {
    forall i, j | 0 <= i < j < n && j != hole :: !Before(s[j], s[i])
  }

  /** Neighbours of the hole in order close it. */
  lemma HoleCloses(s: seq<Session>, n: nat, hole: nat)
    requires hole < n <= |s| && SortedBut(s, n, hole)
    requires hole > 0 ==> !Before(s[hole], s[hole - 1])
    ensures Sorted(s[..n])
  {
    forall i, j | 0 <= i < j < n ensures !Before(s[j], s[i]) {
      if j == hole && i < hole - 1 {
        NotBeforeIsTransitive(s[i], s[hole - 1], s[hole]);
      }
    }
  }

  function Swapped(s: seq<Session>, j: nat): seq<Session>
    requires 0 < j < |s|
  {
    s[j - 1 := s[j]][j := s[j - 1]]
  }

  lemma SwappedIsPermutation(s: seq<Session>, j: nat)
    requires 0 < j < |s|
    ensures multiset(Swapped(s, j)) == multiset(s)
  {}

  /** The hole moves down past an element it precedes. */
  lemma HoleMoves(s: seq<Session>, n: nat, j: nat)
    requires 0 < j < n <= |s| && SortedBut(s, n, j) && Before(s[j], s[j - 1])
    ensures SortedBut(Swapped(s, j), n, j - 1)
  {
    LessIsTotalOrder(s[j].id.text, s[j - 1].id.text, s[j].id.text);
  }

  /** sortSessionsByUpdated: an insertion sort in place. */
  method SortSessionsByUpdated(a: array<Session>)
    modifies a
    ensures Sorted(a[..]) && multiset(a[..]) == multiset(old(a[..]))
    ensures forall i, j | 0 <= i < j < a.Length ::
      a[j].updatedAt <= a[i].updatedAt && (a[j].updatedAt == a[i].updatedAt ==> !Less(a[j].id.text, a[i].id.text))
  {
    var i := 1;
    while i < a.Length
      invariant 1 <= i && (1 <= a.Length ==> i <= a.Length && Sorted(a[..i]))
      invariant multiset(a[..]) == multiset(old(a[..]))
    {
      Insert(a, i);
      i := i + 1;
    }
    assert a.Length > 0 ==> a[..a.Length] == a[..];
    forall i, j | 0 <= i < j < a.Length ensures !Before(a[j], a[i]) {
      assert a[..][i] == a[i] && a[..][j] == a[j];
    }
  }

  /** The inner loop. */
  method Insert(a: array<Session>, i: nat)
    requires i < a.Length && Sorted(a[..i])
    modifies a
    ensures Sorted(a[..i + 1]) && multiset(a[..]) == multiset(old(a[..]))
  {
    var j := i;
    forall p, q | 0 <= p < q < i + 1 && q != i ensures !Before(a[q], a[p]) {
      assert a[..i][q] == a[q] && a[..i][p] == a[p];
    }
    while j > 0
      invariant 0 <= j <= i
      invariant SortedBut(a[..], i + 1, j)
      invariant multiset(a[..]) == multiset(old(a[..]))
    {
      if !Before(a[j], a[j - 1]) { break; }
      ghost var s := a[..];
      HoleMoves(s, i + 1, j);
      SwappedIsPermutation(s, j);
      a[j - 1], a[j] := a[j], a[j - 1];
      assert a[..] == Swapped(s, j);
      j := j - 1;
    }
    HoleCloses(a[..], i + 1, j);
    assert a[..][..i + 1] == a[..i + 1];
  }

  // ---------------------------------------------------------------- the listing is determined

  lemma FirstIsLeast(s: seq<Session>, x: Session)
    requires Sorted(s) && x in s
    ensures s != [] && (x == s[0] || !Before(x, s[0]))
  {}

  lemma SameFirst(s: seq<Session>, t: seq<Session>)
    requires Sorted(s) && Sorted(t) && multiset(s) == multiset(t) && DistinctIds(s) && s != []
    ensures t != [] && s[0] == t[0]
  {
    assert s[0] in multiset(s) && s[0] in t;
    assert t[0] in multiset(t) && t[0] in s;
    FirstIsLeast(t, s[0]);
    FirstIsLeast(s, t[0]);
    LessIsTotalOrder(s[0].id.text, t[0].id.text, s[0].id.text);
    assert s[0].id.text == t[0].id.text;
  }

  lemma RestOf(s: seq<Session>)
    requires s != []
    ensures multiset(s[1..]) == multiset(s) - multiset{s[0]}
  {
    assert s == [s[0]] + s[1..];
  }

  /** Sessions carry distinct identifiers, so the sorted listing does not depend on the order
      in which the directory was read. */
  lemma {:induction false} SortedListingIsUnique(s: seq<Session>, t: seq<Session>)
    requires Sorted(s) && Sorted(t) && multiset(s) == multiset(t) && DistinctIds(s)
    ensures s == t
    decreases |s|
  {
    assert |multiset(s)| == |s| && |multiset(t)| == |t|;
    if s != [] {
      SameFirst(s, t);
      RestOf(s);
      RestOf(t);
      SortedListingIsUnique(s[1..], t[1..]);
      assert s == [s[0]] + s[1..] && t == [t[0]] + t[1..];
    }
  }
}
