/** Small shared vocabulary: optional values and sets of event ids read in order. */
module Common {
  datatype Option<+T> = None | Some(value: T)

  /** Go's math.MaxInt64, the hook's spelling of "no bound". */
  const MAX_INT64 := 0x7FFF_FFFF_FFFF_FFFF

  function Max(a: int, b: int): int { if a < b then b else a }

  lemma SubsetIsSmaller<T>(a: set<T>, b: set<T>)
    requires a <= b
    ensures |a| <= |b|
  {
    assert b == a + (b - a);
  }

  lemma SomeMember<T>(s: set<T>) returns (x: T)
    requires s != {}
    ensures x in s
  {
    x :| x in s;
  }

  ghost predicate IsMin(s: set<int>, m: int) {
    m in s && forall x | x in s :: m <= x
  }

  lemma {:induction false} MinExists(s: set<int>)
    requires s != {}
    ensures exists m :: IsMin(s, m)
  {
    var m := SomeMember(s);
    if s == {m} {
      assert IsMin(s, m);
    } else {
      MinExists(s - {m});
      var n :| IsMin(s - {m}, n);
      assert s == (s - {m}) + {m};
      assert IsMin(s, if n < m then n else m);
    }
  }

  function MinId(s: set<int>): (m: int)
    requires s != {}
    ensures m in s
    ensures forall x | x in s :: m <= x
  {
    MinExists(s);
    assert exists m :: m in s && forall x | x in s :: m <= x by {
      var n :| IsMin(s, n);
    }
    var m :| m in s && forall x | x in s :: m <= x;
    m
  }

  ghost predicate Ascending(ids: seq<int>) {
    forall i, j | 0 <= i < j < |ids| :: ids[i] < ids[j]
  }

  /** The members of s in ascending order: how every id list of the hook is kept. */
  function SortedIds(s: set<int>): (ids: seq<int>)
    ensures |ids| == |s|
    ensures forall x :: x in ids <==> x in s
    ensures Ascending(ids)
  {
    if s == {} then [] else
      var m := MinId(s);
      [m] + SortedIds(s - {m})
  }

  /** The n largest members of s: the tail of the sorted list. */
  function LastN(s: set<int>, n: nat): (kept: set<int>)
    ensures kept <= s && |kept| <= n
    ensures |s| <= n ==> kept == s
    ensures |s| > n ==> |kept| == n
    ensures forall x, y | x in s - kept && y in kept :: x < y
  {
    if |s| <= n then s else
      var m := MinId(s);
      assert |s - {m}| == |s| - 1;
      var kept := LastN(s - {m}, n);
      assert s - kept == (s - {m} - kept) + {m};
      kept
  }

  /** The n smallest members of s. */
  function FirstN(s: set<int>, n: nat): (kept: set<int>)
    ensures kept <= s && |kept| <= n
    ensures |s| <= n ==> kept == s
    ensures |s| > n ==> |kept| == n
    ensures forall x, y | x in s - kept && y in kept :: y < x
  {
    if n == 0 || s == {} then {} else
      var m := MinId(s);
      var rest := FirstN(s - {m}, n - 1);
      assert |s - {m}| == |s| - 1;
      assert s - ({m} + rest) == s - {m} - rest;
      {m} + rest
  }

  /** The n lowest members are the only such part. */
  lemma {:induction false} LowestAreUnique(all: set<int>, low: set<int>, n: nat)
    requires low <= all && |low| <= n && (|low| == n || low == all)
    requires forall x, y | x in low && y in all - low :: x < y
    ensures low == FirstN(all, n)
    decreases n
  {
    if n != 0 && all != {} {
      var m := MinId(all);
      var x := SomeMember(low);
      assert m in low || m in all - low;
      assert m in low;
      assert |low - {m}| == |low| - 1;
      assert (all - {m}) - (low - {m}) == all - low;
      LowestAreUnique(all - {m}, low - {m}, n - 1);
    }
  }

  // ---------------------------------------------------------------------
  // Tables keyed by id: a list sorted by distinct ids is the map it lists
  // ---------------------------------------------------------------------

  function Filtered<K, T>(m: map<K, T>, p: (K, T) -> bool): map<K, T> {
    map k | k in m && p(k, m[k]) :: m[k]
  }

  lemma SameEntries<K, T>(a: map<K, T>, b: map<K, T>)
    requires (forall k | k in a :: k in b) && (forall k | k in b :: k in a)
    requires forall k | k in a :: a[k] == b[k]
    ensures a == b
  {
    assert a.Keys == b.Keys;
  }

  /** The entries of m that satisfy p, collected in one pass in any order. */
  method FilterEntries<K, T>(m: map<K, T>, p: (K, T) -> bool) returns (kept: map<K, T>)
    ensures kept == Filtered(m, p)
  {
    kept := map[];
    var todo := m.Keys;
    while todo != {}
      invariant todo <= m.Keys
      invariant forall k | k in m && k !in todo && p(k, m[k]) :: k in kept
      invariant forall k | k in kept :: k in m && kept[k] == m[k] && p(k, m[k])
      decreases |todo|
    {
      var k :| k in todo;
      if p(k, m[k]) {
        kept := kept[k := m[k]];
      }
      todo := todo - {k};
    }
    SameEntries(kept, Filtered(m, p));
  }

  /** The n entries of lowest id. */
  function Lowest<T>(m: map<int, T>, n: nat): map<int, T> {
    var low := FirstN(m.Keys, n);
    map id | id in m && id in low :: m[id]
  }

  lemma LowestOfFew<T>(m: map<int, T>, n: nat)
    requires |m| <= n
    ensures Lowest(m, n) == m
  {
    assert |m.Keys| == |m|;
    SameEntries(Lowest(m, n), m);
  }

  method NextLowest(s: set<int>) returns (m: int, rest: set<int>)
    requires s != {}
    ensures m in s && rest == s - {m}
    ensures forall x | x in rest :: m < x
  {
    m := MinId(s);
    rest := s - {m};
  }

  /** As FilterEntries, but in id order and stopping at the n-th entry: what is left
      out has higher ids. */
  method FilterLowest<T>(m: map<int, T>, p: (int, T) -> bool, n: nat) returns (kept: map<int, T>)
    ensures kept == Lowest(Filtered(m, p), n)
  {
    kept := map[];
    var todo := m.Keys;
    while todo != {} && |kept| < n
      invariant todo <= m.Keys && |kept| <= n
      invariant forall id | id in m && id !in todo && p(id, m[id]) :: id in kept
      invariant forall id | id in kept :: id in m && id !in todo && kept[id] == m[id] && p(id, m[id])
      invariant forall x, y | x in kept && y in todo :: x < y
      decreases |todo|
    {
      var id, rest := NextLowest(todo);
      if p(id, m[id]) {
        assert id !in kept;
        kept := kept[id := m[id]];
      }
      todo := rest;
    }
    StoppedAtLowest(Filtered(m, p), kept, todo, n);
  }

  lemma StoppedAtLowest<T>(all: map<int, T>, kept: map<int, T>, todo: set<int>, n: nat)
    requires |kept| <= n && (|kept| == n || todo == {})
    requires forall id | id in kept :: id in all && kept[id] == all[id]
    requires forall id | id in all && id !in todo :: id in kept
    requires forall x, y | x in kept && y in todo :: x < y
    ensures kept == Lowest(all, n)
  {
    assert |kept.Keys| == |kept|;
    assert kept.Keys <= all.Keys by {
      forall k | k in kept ensures k in all.Keys {}
    }
    if todo == {} {
      assert kept.Keys == all.Keys by {
        forall k | k in all ensures k in kept.Keys {}
      }
    }
    LowestAreUnique(all.Keys, kept.Keys, n);
    assert kept.Keys == Lowest(all, n).Keys;
  }
}
