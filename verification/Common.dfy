/** Small definitions shared by the kernel models. */
module Common {
  type TaskId = nat

  datatype Option<+T> = None | Some(value: T)

  /** Return codes of the system calls, as far as the models use them. */
  datatype Er =
    | E_OK | E_PAR | E_NOEXS | E_ILUSE | E_OBJ | E_QOVR | E_TMOUT | E_LIMIT | E_CTX

  /** A bit of a UINT, and a bit pattern as the set of its bits. */
  type Bit = b: nat | b < 32
  type Pattern = set<Bit>

  /** `i` and `j` are positions of `s`, in this order.  Quantifiers over pairs of
      positions are triggered by this name, so that they are used only on demand. */
  predicate Before<T>(s: seq<T>, i: int, j: int) {
    0 <= i < j < |s|
  }

  ghost predicate NoDup<T>(s: seq<T>) {
    forall i, j {:trigger Before(s, i, j)} :: Before(s, i, j) ==> s[i] != s[j]
  }

  lemma NoDupAt<T>(s: seq<T>, i: int, j: int)
    requires NoDup(s) && 0 <= i < |s| && 0 <= j < |s| && i != j
    ensures s[i] != s[j]
  {
    assert Before(s, i, j) || Before(s, j, i);
  }

  /** QueRemove on a ring seen as a sequence: delete the first occurrence of `x`. */
  function Without<T(==)>(s: seq<T>, x: T): (r: seq<T>)
    ensures x !in s ==> r == s
    ensures x in s ==> |r| == |s| - 1
    ensures forall y :: y in r ==> y in s
    ensures forall y :: y in s && y != x ==> y in r
  {
    if s == [] then []
    else if s[0] == x then s[1..]
    else [s[0]] + Without(s[1..], x)
  }

  /** The first position of `x`. */
  ghost function IndexOf<T>(s: seq<T>, x: T): (k: nat)
    requires x in s
    ensures k < |s| && s[k] == x && x !in s[..k]
  {
    if s[0] == x then 0
    else
      assert forall k :: 0 <= k < |s[1..]| ==> s[..k + 1] == [s[0]] + s[1..][..k];
      1 + IndexOf(s[1..], x)
  }

  /** Where the deleted element was, the sequence is cut and joined. */
  lemma {:induction false} WithoutIs<T>(s: seq<T>, x: T)
    requires x in s
    ensures Without(s, x) == s[..IndexOf(s, x)] + s[IndexOf(s, x) + 1..]
  {
    if s[0] != x {
      WithoutIs(s[1..], x);
      var k := IndexOf(s[1..], x);
      assert s[..k + 1] == [s[0]] + s[1..][..k];
      assert s[k + 2..] == s[1..][k + 1..];
    }
  }

  lemma WithoutAt<T>(s: seq<T>, x: T)
    requires x in s
    ensures exists k :: 0 <= k < |s| && s[k] == x && x !in s[..k] && Without(s, x) == s[..k] + s[k + 1..]
  {
    WithoutIs(s, x);
    var k := IndexOf(s, x);
    assert s[k] == x && Without(s, x) == s[..k] + s[k + 1..];
  }

  lemma WithoutNoDup<T>(s: seq<T>, x: T)
    requires NoDup(s)
    ensures NoDup(Without(s, x)) && x !in Without(s, x)
  {
    if x in s {
      WithoutIs(s, x);
      CutNoDup(s, IndexOf(s, x));
    }
  }

  /** Cutting out one position leaves no duplicates, and not the element cut out. */
  lemma CutNoDup<T>(s: seq<T>, k: nat)
    requires NoDup(s) && k < |s|
    ensures NoDup(s[..k] + s[k + 1..]) && s[k] !in s[..k] + s[k + 1..]
  {
    var r := s[..k] + s[k + 1..];
    forall i, j | Before(r, i, j) ensures r[i] != r[j] {
      NoDupAt(s, if i < k then i else i + 1, if j < k then j else j + 1);
    }
    forall i | 0 <= i < |r| ensures r[i] != s[k] {
      NoDupAt(s, if i < k then i else i + 1, k);
    }
  }

  /** A tail of a sequence without duplicates has none, and misses the head. */
  lemma TailNoDup<T>(s: seq<T>)
    requires NoDup(s) && s != []
    ensures NoDup(s[1..]) && s[0] !in s[1..]
  {
    forall i, j | Before(s[1..], i, j) ensures s[1..][i] != s[1..][j] {
      NoDupAt(s, i + 1, j + 1);
    }
    forall i | 0 <= i < |s[1..]| ensures s[1..][i] != s[0] {
      NoDupAt(s, 0, i + 1);
    }
  }

  lemma ConsNoDup<T>(x: T, s: seq<T>)
    requires NoDup(s) && x !in s
    ensures NoDup([x] + s)
  {
    var r := [x] + s;
    forall i, j | Before(r, i, j) ensures r[i] != r[j] {
      if i > 0 { NoDupAt(s, i - 1, j - 1); }
    }
  }

  lemma SnocNoDup<T>(s: seq<T>, x: T)
    requires NoDup(s) && x !in s
    ensures NoDup(s + [x])
  {
    var r := s + [x];
    forall i, j | Before(r, i, j) ensures r[i] != r[j] {
      if j < |s| { NoDupAt(s, i, j); }
    }
  }

  lemma {:induction false} WithoutSnoc<T>(s: seq<T>, y: T, x: T)
    ensures Without(s + [y], x) == if x in s then Without(s, x) + [y] else if x == y then s else s + [y]
  {
    if s != [] && s[0] != x {
      WithoutSnoc(s[1..], y, x);
      assert (s + [y])[1..] == s[1..] + [y];
    } else if s != [] {
      assert (s + [y])[1..] == s[1..] + [y];
    }
  }

  lemma SameMembersEmpty<T>(q: seq<T>, r: seq<T>)
    requires forall x :: x in r <==> x in q
    ensures r == [] <==> q == []
  {
    assert q != [] ==> q[0] in q;
    assert r != [] ==> r[0] in r;
  }

  lemma Overwrite<K, V>(m: map<K, V>, k: K, a: V, b: V)
    ensures m[k := a][k := b] == m[k := b]
  {
  }

  /** The scan of a queue in order: the position of the first key above `bound`. */
  function FirstAbove(keys: seq<int>, bound: int): (k: nat)
    ensures k <= |keys| && (forall i :: 0 <= i < k ==> keys[i] <= bound) && (k < |keys| ==> keys[k] > bound)
  {
    if keys == [] || keys[0] > bound then 0 else 1 + FirstAbove(keys[1..], bound)
  }

  /** The number of words of 32 bits. */
  const WORD := 0x1_0000_0000

  function One(b: bool): int { if b then 1 else 0 }

  // ---------------------------------------------------------- counting threads

  /** The threads whose place satisfies `P`. */
  ghost function Who<P>(pc: map<TaskId, P>, at: P -> bool): set<TaskId> {
    set t | t in pc && at(pc[t])
  }

  ghost function Many<P>(pc: map<TaskId, P>, at: P -> bool): nat {
    |Who(pc, at)|
  }

  /** One thread goes to place `q`. */
  lemma Moves<P>(pc: map<TaskId, P>, at: P -> bool, t: TaskId, q: P)
    requires t in pc
    ensures Many(pc[t := q], at) == Many(pc, at) - (if at(pc[t]) then 1 else 0) + (if at(q) then 1 else 0)
  {
    var pc' := pc[t := q];
    var others := Who(pc, at) - {t};
    assert Who(pc, at) == if at(pc[t]) then others + {t} else others;
    assert Who(pc', at) == if at(q) then others + {t} else others;
  }

  lemma ManySome<P>(pc: map<TaskId, P>, at: P -> bool)
    ensures Many(pc, at) > 0 <==> exists t :: t in pc && at(pc[t])
  {
    if Many(pc, at) > 0 {
      var t :| t in Who(pc, at);
    } else {
      assert forall t :: t in pc && at(pc[t]) ==> t in Who(pc, at);
    }
  }

  lemma ManyOne<P>(pc: map<TaskId, P>, at: P -> bool, t: TaskId, u: TaskId)
    requires Many(pc, at) <= 1 && t in pc && u in pc && at(pc[t]) && at(pc[u])
    ensures t == u
  {
    if t != u {
      assert {t, u} <= Who(pc, at);
      SubsetSize({t, u}, Who(pc, at));
    }
  }

  lemma {:induction false} SubsetSize<T>(a: set<T>, b: set<T>)
    requires a <= b
    ensures |a| <= |b|
  {
    assert b == a + (b - a);
  }
}

/** Multiplication and division facts. */
module Arith {
  lemma Scale(a: int, b: int, c: int)
    requires a <= b && 0 <= c
    ensures a * c <= b * c
  {
  }

  lemma Division(d: int, p: int)
    requires 0 < p && 0 <= d
    ensures 0 <= d / p && d / p * p <= d < (d / p + 1) * p
  {
    assert d == d / p * p + d % p;
    assert (d / p + 1) * p == d / p * p + p;
  }

  lemma ModShift(x: int, k: int, p: int)
    requires 0 < p
    ensures (x + k * p) % p == x % p
  {
    var q, r := x / p, x % p;
    assert x + k * p == (q + k) * p + r;
    ModUnique(x + k * p, p, q + k, r);
  }

  lemma ModUnique(d: int, p: int, q: int, r: int)
    requires 0 < p && 0 <= r < p && d == q * p + r
    ensures d % p == r
  {
    DivUnique(d, p, q, r);
    assert d == d / p * p + d % p;
  }

  lemma DivUnique(d: int, p: int, q: int, r: int)
    requires 0 < p && 0 <= r < p && d == q * p + r
    ensures d / p == q
  {
    var q', r' := d / p, d % p;
    assert d == q' * p + r';
    assert (q - q') * p == r' - r;
    if q > q' { Scale(1, q - q', p); }
    if q < q' { Scale(q - q', -1, p); }
  }
}
