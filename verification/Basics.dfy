/** Sorting, grouping and indexing: the dictionary and list primitives the rest of the model uses.

    Python's `sorted(items, key=...)` becomes `SortBy`; a dictionary of records keyed by their
    own identifier is described by `ById`; a dictionary of sets is described by `Group`. */
module Basics {

  /** An identifier string. Only equality and a total order on identifiers matter. */
  datatype Id = Id(n: int)

  type Time = int

  datatype Option<+T> = None | Some(value: T)

  /** A Python call that either returns a value or raises ValueError. */
  datatype Result<+T> = Ok(value: T) | ValueError

  function Max(a: int, b: int): int { if a < b then b else a }

  function Min(a: int, b: int): int { if b < a then b else a }

  ghost function Elements<T>(s: seq<T>): set<T> { set x | x in s }

  /** Gives the verifier the witness it needs to pick an element of a non-empty set. */
  lemma Inhabited<T>(s: set<T>) returns (x: T)
    requires s != {}
    ensures x in s
  {
    x :| x in s;
  }

  ghost predicate NoDuplicates<T>(s: seq<T>) {
    forall i, j :: 0 <= i < j < |s| ==> s[i] != s[j]
  }

  lemma ElementsConcat<T>(a: seq<T>, b: seq<T>)
    ensures Elements(a + b) == Elements(a) + Elements(b)
  {
  }

  lemma PrefixStep<T>(s: seq<T>, i: nat)
    requires i < |s|
    ensures Elements(s[..i + 1]) == Elements(s[..i]) + {s[i]}
    ensures NoDuplicates(s) ==> s[i] !in Elements(s[..i])
    ensures Elements(s[..i + 1]) <= Elements(s)
  {
    assert s[..i + 1] == s[..i] + [s[i]];
  }

  // ---------------------------------------------------------------- sort keys

  /** A lexicographic sort key, wide enough for every key the program sorts by. */
  datatype Rank = Rank(major: int, middle: int, minor: int)

  predicate Below(a: Rank, b: Rank) {
    a.major < b.major
    || (a.major == b.major && (a.middle < b.middle || (a.middle == b.middle && a.minor < b.minor)))
  }

  ghost predicate Sorted<T>(s: seq<T>, rank: T -> Rank) {
    forall i, j :: 0 <= i < j < |s| ==> !Below(rank(s[j]), rank(s[i]))
  }

  ghost predicate StrictlySorted<T>(s: seq<T>, rank: T -> Rank) {
    forall i, j :: 0 <= i < j < |s| ==> Below(rank(s[i]), rank(s[j]))
  }

  ghost predicate Distinct<T>(s: set<T>, rank: T -> Rank) {
    forall x, y :: x in s && y in s && rank(x) == rank(y) ==> x == y
  }

  function Insert<T>(s: seq<T>, x: T, rank: T -> Rank): (r: seq<T>)
  {
    if s == [] then [x]
    else if Below(rank(x), rank(s[0])) then [x] + s
    else [s[0]] + Insert(s[1..], x, rank)
  }

  /** Stable insertion sort: what `sorted(s, key=rank)` returns. */
  function SortBy<T>(s: seq<T>, rank: T -> Rank): (r: seq<T>)
  {
    if s == [] then [] else Insert(SortBy(s[..|s| - 1], rank), s[|s| - 1], rank)
  }

  lemma {:induction false} InsertKeeps<T>(s: seq<T>, x: T, rank: T -> Rank)
    ensures multiset(Insert(s, x, rank)) == multiset(s) + multiset{x}
    ensures Elements(Insert(s, x, rank)) == Elements(s) + {x}
  {
    if s != [] && !Below(rank(x), rank(s[0])) {
      assert s == [s[0]] + s[1..];
      InsertKeeps(s[1..], x, rank);
      ElementsConcat([s[0]], s[1..]);
      ElementsConcat([s[0]], Insert(s[1..], x, rank));
    } else {
      ElementsConcat([x], s);
    }
  }

  lemma {:induction false} InsertSorts<T>(s: seq<T>, x: T, rank: T -> Rank)
    requires Sorted(s, rank)
    ensures Sorted(Insert(s, x, rank), rank)
  {
    if s != [] && !Below(rank(x), rank(s[0])) {
      var tail := Insert(s[1..], x, rank);
      InsertSorts(s[1..], x, rank);
      InsertKeeps(s[1..], x, rank);
      forall y | y in tail ensures !Below(rank(y), rank(s[0])) {
        assert y in Elements(tail);
      }
    }
  }

  lemma {:induction false} SortByProperties<T>(s: seq<T>, rank: T -> Rank)
    ensures Sorted(SortBy(s, rank), rank)
    ensures multiset(SortBy(s, rank)) == multiset(s)
  {
    if s != [] {
      assert s == s[..|s| - 1] + [s[|s| - 1]];
      SortByProperties(s[..|s| - 1], rank);
      InsertKeeps(SortBy(s[..|s| - 1], rank), s[|s| - 1], rank);
      InsertSorts(SortBy(s[..|s| - 1], rank), s[|s| - 1], rank);
    }
  }

  lemma SameMultisetSameElements<T>(a: seq<T>, b: seq<T>)
    requires multiset(a) == multiset(b)
    ensures Elements(a) == Elements(b) && |a| == |b|
  {
    forall x ensures x in a <==> x in b {
      assert x in a <==> x in multiset(a);
      assert x in b <==> x in multiset(b);
    }
    assert |a| == |multiset(a)| && |b| == |multiset(b)|;
  }

  lemma SameMultisetNoDuplicates<T>(a: seq<T>, b: seq<T>)
    requires multiset(a) == multiset(b) && NoDuplicates(a)
    ensures NoDuplicates(b)
  {
    forall x ensures multiset(a)[x] <= 1 {
      CountOnce(a, x);
    }
    forall i, j | 0 <= i < j < |b| ensures b[i] != b[j] {
      assert b == b[..j] + [b[j]] + b[j + 1..];
      assert b[i] in b[..j];
      assert multiset(b)[b[j]] == multiset(b[..j])[b[j]] + 1 + multiset(b[j + 1..])[b[j]];
    }
  }

  lemma CountOnce<T>(a: seq<T>, x: T)
    requires NoDuplicates(a)
    ensures multiset(a)[x] <= 1
  {
    if a != [] {
      var rest := a[..|a| - 1];
      assert a == rest + [a[|a| - 1]];
      CountOnce(rest, x);
      if x == a[|a| - 1] {
        assert x !in rest;
      }
    }
  }

  // ---------------------------------------------------------------- listings of sets

  ghost predicate IsLeast<T(!new)>(m: T, s: set<T>, rank: T -> Rank) {
    m in s && forall x :: x in s && x != m ==> Below(rank(m), rank(x))
  }

  /** The elements of a set in increasing rank: what sorting any enumeration of the set gives. */
  ghost function Listing<T(!new)>(s: set<T>, rank: T -> Rank): (r: seq<T>)
  {
    if exists m :: IsLeast(m, s, rank) then
      var m :| IsLeast(m, s, rank);
      [m] + Listing(s - {m}, rank)
    else []
  }

  lemma {:induction false} LeastExists<T(!new)>(s: set<T>, rank: T -> Rank) returns (m: T)
    requires s != {} && Distinct(s, rank)
    ensures IsLeast(m, s, rank)
  {
    m :| m in s;
    if s != {m} {
      var n := LeastExists(s - {m}, rank);
      if Below(rank(n), rank(m)) {
        m := n;
      }
    }
  }

  lemma LeastUnique<T(!new)>(s: set<T>, rank: T -> Rank, m: T)
    requires IsLeast(m, s, rank)
    ensures Listing(s, rank) == [m] + Listing(s - {m}, rank)
  {
    assert forall n :: IsLeast(n, s, rank) ==> n == m;
  }

  lemma {:induction false} ListingProperties<T(!new)>(s: set<T>, rank: T -> Rank)
    requires Distinct(s, rank)
    ensures StrictlySorted(Listing(s, rank), rank)
    ensures Elements(Listing(s, rank)) == s
    decreases s
  {
    if s != {} {
      var m := LeastExists(s, rank);
      LeastUnique(s, rank, m);
      ListingProperties(s - {m}, rank);
      var tail := Listing(s - {m}, rank);
      PrependLeast(m, tail, s - {m}, rank);
      ElementsConcat([m], tail);
    }
  }

  lemma PrependLeast<T(!new)>(m: T, tail: seq<T>, rest: set<T>, rank: T -> Rank)
    requires StrictlySorted(tail, rank) && Elements(tail) == rest
    requires forall x :: x in rest ==> Below(rank(m), rank(x))
    ensures StrictlySorted([m] + tail, rank)
  {
    forall x | x in tail ensures Below(rank(m), rank(x)) { assert x in Elements(tail); }
  }

  /** A strictly sorted list is determined by its elements. */
  lemma {:induction false} StrictlySortedUnique<T>(a: seq<T>, b: seq<T>, rank: T -> Rank)
    requires StrictlySorted(a, rank) && StrictlySorted(b, rank)
    requires Elements(a) == Elements(b)
    ensures a == b
  {
    assert |b| > 0 ==> b[0] in Elements(b);
    if a != [] {
      assert a[0] in Elements(a);
      assert a[0] in b;
      assert b[0] in Elements(b);
      assert b[0] in a;
      assert a[0] == b[0];
      forall x ensures x in a[1..] <==> x in b[1..] {
        TailMembers(a, rank, x);
        TailMembers(b, rank, x);
        assert x in Elements(a) <==> x in Elements(b);
      }
      assert Elements(a[1..]) == Elements(b[1..]);
      StrictlySortedUnique(a[1..], b[1..], rank);
      assert a == [a[0]] + a[1..] && b == [b[0]] + b[1..];
    }
  }

  lemma TailMembers<T>(a: seq<T>, rank: T -> Rank, x: T)
    requires a != [] && StrictlySorted(a, rank)
    ensures x in a[1..] <==> x in a && x != a[0]
  {
    assert a == [a[0]] + a[1..];
    if x in a[1..] {
      var i :| 0 <= i < |a[1..]| && a[1..][i] == x;
      assert a[i + 1] == x && Below(rank(a[0]), rank(a[i + 1]));
    }
  }

  lemma ListingUnique<T(!new)>(q: seq<T>, s: set<T>, rank: T -> Rank)
    requires StrictlySorted(q, rank) && Elements(q) == s
    ensures q == Listing(s, rank)
  {
    forall x, y | x in s && y in s && rank(x) == rank(y) ensures x == y {
      assert x in q && y in q;
    }
    ListingProperties(s, rank);
    StrictlySortedUnique(q, Listing(s, rank), rank);
  }

  /** Sorting any duplicate-free enumeration of a set gives its listing. */
  lemma SortByListing<T(!new)>(q: seq<T>, s: set<T>, rank: T -> Rank)
    requires NoDuplicates(q) && Elements(q) == s && Distinct(s, rank)
    ensures SortBy(q, rank) == Listing(s, rank)
  {
    var r := SortBy(q, rank);
    SortByProperties(q, rank);
    SameMultisetSameElements(q, r);
    SameMultisetNoDuplicates(q, r);
    forall i, j | 0 <= i < j < |r| ensures Below(rank(r[i]), rank(r[j])) {
      assert r[i] in Elements(r) && r[j] in Elements(r);
      assert rank(r[i]) != rank(r[j]);
    }
    ListingUnique(r, s, rank);
  }

  /** Appending a new element and sorting again. */
  lemma SortByAppend<T(!new)>(s: set<T>, x: T, rank: T -> Rank)
    requires x !in s && Distinct(s + {x}, rank)
    ensures SortBy(Listing(s, rank) + [x], rank) == Listing(s + {x}, rank)
  {
    ListingProperties(s, rank);
    var q := Listing(s, rank) + [x];
    forall y | y in Listing(s, rank) ensures y != x { assert y in Elements(Listing(s, rank)); }
    assert Elements(q) == s + {x};
    SortByListing(q, s + {x}, rank);
  }

  lemma LeastIsUnique<T(!new)>(s: set<T>, rank: T -> Rank)
    requires s != {} && Distinct(s, rank)
    ensures exists m :: IsLeast(m, s, rank)
    ensures forall m, n :: IsLeast(m, s, rank) && IsLeast(n, s, rank) ==> m == n
  {
    var m := LeastExists(s, rank);
  }

  /** `sorted(s, key=rank)` for a set whose elements the key tells apart. */
  function SortedSet<T(==, !new)>(s: set<T>, rank: T -> Rank): (r: seq<T>)
    requires Distinct(s, rank)
    ensures r == Listing(s, rank)
    decreases s
  {
    if s == {} then []
    else
      LeastIsUnique(s, rank);
      var m :| m in s && forall x :: x in s && x != m ==> Below(rank(m), rank(x));
      assert IsLeast(m, s, rank);
      LeastUnique(s, rank, m);
      [m] + SortedSet(s - {m}, rank)
  }

  // ---------------------------------------------------------------- identifiers

  function IdRank(i: Id): Rank { Rank(i.n, 0, 0) }

  function Minimum(s: set<Id>): (m: Id)
    requires s != {}
    ensures m in s && forall x :: x in s ==> m.n <= x.n
  {
    assert exists m :: IsLeast(m, s, IdRank) by { var w := LeastExists(s, IdRank); }
    var m :| m in s && forall x :: x in s && x != m ==> Below(IdRank(m), IdRank(x));
    m
  }

  /** `sorted(s)` for a set of identifiers. */
  function SortedIds(s: set<Id>): (r: seq<Id>)
    ensures Elements(r) == s
    ensures |r| == |s|
  {
    if s == {} then []
    else
      var m := Minimum(s);
      ElementsConcat([m], SortedIds(s - {m}));
      [m] + SortedIds(s - {m})
  }

  lemma {:induction false} SortedIdsIncrease(s: set<Id>)
    ensures StrictlySorted(SortedIds(s), IdRank)
  {
    if s != {} {
      var m := Minimum(s);
      SortedIdsIncrease(s - {m});
      PrependLeast(m, SortedIds(s - {m}), s - {m}, IdRank);
    }
  }

  // ---------------------------------------------------------------- records by identifier

  ghost predicate Injective<K(!new), T(!new)>(s: set<T>, id: T -> K) {
    forall x, y :: x in s && y in s && id(x) == id(y) ==> x == y
  }

  ghost predicate Bears<K(!new), T(!new)>(s: set<T>, id: T -> K, k: K, x: T) { x in s && id(x) == k }

  ghost function Pick<K(!new), T(!new)>(s: set<T>, id: T -> K, k: K): T
    requires exists x :: Bears(s, id, k, x)
  {
    var x :| Bears(s, id, k, x); x
  }

  /** The dictionary `{id(x): x for x in s}`. */
  ghost function ById<K(!new), T(!new)>(s: set<T>, id: T -> K): map<K, T> {
    map k | k in (set x | x in s :: id(x)) :: assert exists x :: Bears(s, id, k, x) by {
      var x :| x in s && id(x) == k;
      assert Bears(s, id, k, x);
    } Pick(s, id, k)
  }

  lemma ByIdLookup<K(!new), T(!new)>(s: set<T>, id: T -> K, x: T)
    requires Injective(s, id) && x in s
    ensures id(x) in ById(s, id) && ById(s, id)[id(x)] == x
  {
    assert Bears(s, id, id(x), x);
  }

  lemma ByIdValues<K(!new), T(!new)>(s: set<T>, id: T -> K, k: K)
    requires k in ById(s, id)
    ensures ById(s, id)[k] in s && id(ById(s, id)[k]) == k
  {
    var x :| x in s && id(x) == k;
    assert Bears(s, id, k, x);
  }

  /** Membership and lookup, for a set whose elements the identifier tells apart. */
  lemma ByIdEntry<K(!new), T(!new)>(s: set<T>, id: T -> K, k: K)
    requires Injective(s, id)
    ensures k in ById(s, id) ==> ById(s, id)[k] in s && id(ById(s, id)[k]) == k
    ensures forall x :: x in s && id(x) == k ==> k in ById(s, id) && ById(s, id)[k] == x
  {
    if k in ById(s, id) {
      ByIdValues(s, id, k);
    }
  }

  lemma ByIdAdd<K(!new), T(!new)>(s: set<T>, id: T -> K, x: T)
    requires Injective(s + {x}, id)
    ensures ById(s + {x}, id) == ById(s, id)[id(x) := x]
  {
    var a, b := ById(s + {x}, id), ById(s, id)[id(x) := x];
    hide ById;
    forall k ensures (k in a <==> k in b) && (k in a ==> a[k] == b[k]) {
      ByIdEntry(s + {x}, id, k);
      ByIdEntry(s, id, k);
    }
    assert a.Keys == b.Keys;
  }

  lemma ByIdRemove<K(!new), T(!new)>(s: set<T>, id: T -> K, x: T)
    requires Injective(s, id) && x in s
    ensures ById(s - {x}, id) == ById(s, id) - {id(x)}
  {
    var a, b := ById(s - {x}, id), ById(s, id) - {id(x)};
    hide ById;
    forall k ensures (k in a <==> k in b) && (k in a ==> a[k] == b[k]) {
      ByIdEntry(s - {x}, id, k);
      ByIdEntry(s, id, k);
    }
    assert a.Keys == b.Keys;
  }

  // ---------------------------------------------------------------- dictionaries of sets

  ghost function Firsts<K(!new), V(!new)>(r: set<(K, V)>): set<K> { set p | p in r :: p.0 }

  ghost function Image<K(!new), V(!new)>(r: set<(K, V)>, k: K): set<V> {
    set p | p in r && p.0 == k :: p.1
  }

  /** The dictionary of sets a relation denotes; keys are present only when they have a value. */
  ghost function Group<K(!new), V(!new)>(r: set<(K, V)>): map<K, set<V>> {
    map k | k in Firsts(r) :: Image(r, k)
  }

  lemma ImageMember<K(!new), V(!new)>(r: set<(K, V)>, k: K, v: V)
    ensures v in Image(r, k) <==> (k, v) in r
  {
    if v in Image(r, k) {
      var p :| p in r && p.0 == k && p.1 == v;
      assert p == (k, v);
    }
    if (k, v) in r {
      var p := (k, v);
      assert p in r && p.0 == k && p.1 == v;
    }
  }

  /** `mapping.get(k, set())` */
  function Lookup<K, V>(m: map<K, set<V>>, k: K): set<V> {
    if k in m then m[k] else {}
  }

  lemma GroupLookup<K(!new), V(!new)>(r: set<(K, V)>, k: K, v: V)
    ensures v in Lookup(Group(r), k) <==> (k, v) in r
    ensures k in Group(r) <==> Image(r, k) != {}
  {
    ImageMember(r, k, v);
    if (k, v) in r {
      assert (k, v).0 in Firsts(r);
    }
    if k in Group(r) {
      var p :| p in r && p.0 == k;
      assert p.1 in Image(r, k);
    }
    if Image(r, k) != {} {
      var w :| w in Image(r, k);
      var p :| p in r && p.0 == k && p.1 == w;
      assert p.0 in Firsts(r);
    }
  }

  /** `mapping.setdefault(k, set()).add(v)` */
  function AddTo<K, V>(m: map<K, set<V>>, k: K, v: V): map<K, set<V>> {
    m[k := Lookup(m, k) + {v}]
  }

  lemma GroupAdd<K(!new), V(!new)>(r: set<(K, V)>, k: K, v: V)
    ensures Group(r + {(k, v)}) == AddTo(Group(r), k, v)
  {
    FirstsAdd(r, k, v);
    ImageOutside(r, k);
    forall x {
      ImageAdd(r, k, v, x);
    }
  }

  /** Every key of a collection paired with one value. */
  ghost function PairsWith<K(!new), V(!new)>(keys: set<K>, v: V): set<(K, V)> { set k | k in keys :: (k, v) }

  lemma PairsWithStep<K(!new), V(!new)>(r: set<(K, V)>, keys: set<K>, k: K, v: V)
    ensures r + PairsWith(keys + {k}, v) == r + PairsWith(keys, v) + {(k, v)}
    ensures PairsWith<K, V>({}, v) == {}
  {
    assert PairsWith(keys + {k}, v) == PairsWith(keys, v) + {(k, v)};
  }

  /** The loop `for k in keys: mapping.setdefault(k, set()).add(v)`. */
  method AddToEach<K(!new), V(!new)>(m: map<K, set<V>>, keys: seq<K>, v: V, ghost r: set<(K, V)>)
    returns (m': map<K, set<V>>)
    requires m == Group(r)
    ensures m' == Group(r + PairsWith(Elements(keys), v))
  {
    m' := m;
    assert Elements(keys[..0]) == {};
    assert r + PairsWith({}, v) == r;
    hide PairsWith;
    hide Group;
    for i := 0 to |keys|
      invariant m' == Group(r + PairsWith(Elements(keys[..i]), v))
    {
      PrefixStep(keys, i);
      PairsWithStep(r, Elements(keys[..i]), keys[i], v);
      GroupAdd(r + PairsWith(Elements(keys[..i]), v), keys[i], v);
      m' := AddTo(m', keys[i], v);
    }
    assert keys[..|keys|] == keys;
  }

  /** The same loop over a set of keys. */
  method AddToAll<K(==, !new), V(!new)>(m: map<K, set<V>>, keys: set<K>, v: V, ghost r: set<(K, V)>)
    returns (m': map<K, set<V>>)
    requires m == Group(r)
    ensures m' == Group(r + PairsWith(keys, v))
  {
    m' := m;
    ghost var done: set<K> := {};
    var todo := keys;
    assert r + PairsWith({}, v) == r;
    hide PairsWith;
    hide Group;
    while todo != {}
      invariant done + todo == keys
      invariant m' == Group(r + PairsWith(done, v))
      decreases |todo|
    {
      var _ := Inhabited(todo);
      var k :| k in todo;
      PairsWithStep(r, done, k, v);
      GroupAdd(r + PairsWith(done, v), k, v);
      m' := AddTo(m', k, v);
      done, todo := done + {k}, todo - {k};
    }
  }

  // ---------------------------------------------------------------- dictionaries of sorted lists

  /** A dictionary whose lists hold, in rank order, the values a relation pairs with each key. */
  ghost function Listings<K(!new), V(!new)>(r: set<(K, V)>, rank: V -> Rank): map<K, seq<V>> {
    map k | k in Firsts(r) :: Listing(Image(r, k), rank)
  }

  ghost function Seconds<K(!new), V(!new)>(r: set<(K, V)>): set<V> { set p | p in r :: p.1 }

  lemma ImageDistinct<K(!new), V(!new)>(r: set<(K, V)>, k: K, rank: V -> Rank)
    requires Distinct(Seconds(r), rank)
    ensures Distinct(Image(r, k), rank)
  {
    forall v | v in Image(r, k) ensures v in Seconds(r) {
      var p :| p in r && p.0 == k && p.1 == v;
    }
  }

  /** `mapping[k] = sorted(mapping.get(k, ()) + (v,))` */
  function AppendSorted<K, V>(m: map<K, seq<V>>, k: K, v: V, rank: V -> Rank): map<K, seq<V>> {
    m[k := SortBy((if k in m then m[k] else []) + [v], rank)]
  }

  lemma FirstsAdd<K(!new), V(!new)>(r: set<(K, V)>, k: K, v: V)
    ensures Firsts(r + {(k, v)}) == Firsts(r) + {k}
  {
    var r' := r + {(k, v)};
    assert (k, v) in r' && (k, v).0 == k;
    forall x | x in Firsts(r) ensures x in Firsts(r') {
      var p :| p in r && p.0 == x;
      assert p in r';
    }
  }

  lemma ImageAdd<K(!new), V(!new)>(r: set<(K, V)>, k: K, v: V, x: K)
    ensures Image(r + {(k, v)}, x) == if x == k then Image(r, x) + {v} else Image(r, x)
  {
    forall w ensures w in Image(r + {(k, v)}, x) <==> (x, w) in r + {(k, v)} {
      ImageMember(r + {(k, v)}, x, w);
    }
    forall w ensures w in Image(r, x) <==> (x, w) in r {
      ImageMember(r, x, w);
    }
  }

  lemma ImageOutside<K(!new), V(!new)>(r: set<(K, V)>, k: K)
    ensures k in Firsts(r) <==> Image(r, k) != {}
  {
    if k in Firsts(r) {
      var p :| p in r && p.0 == k;
      assert p.1 in Image(r, k);
    }
  }

  lemma ListingsAppend<K(!new), V(!new)>(r: set<(K, V)>, k: K, v: V, rank: V -> Rank)
    requires (k, v) !in r && Distinct(Seconds(r + {(k, v)}), rank)
    ensures Listings(r + {(k, v)}, rank) == AppendSorted(Listings(r, rank), k, v, rank)
  {
    var r' := r + {(k, v)};
    FirstsAdd(r, k, v);
    ImageMember(r, k, v);
    ImageAdd(r, k, v, k);
    ImageDistinct(r', k, rank);
    SortByAppend(Image(r, k), v, rank);
    ImageOutside(r, k);
    assert Listing<V>({}, rank) == [];
    forall x | x in Firsts(r') && x != k ensures Image(r', x) == Image(r, x) {
      ImageAdd(r, k, v, x);
    }
  }

  // ---------------------------------------------------------------- unsorted groups

  /** A dictionary of lists still to be sorted: each list enumerates its key's values once. */
  ghost predicate Bag<K(!new), V(!new)>(m: map<K, seq<V>>, r: set<(K, V)>) {
    && m.Keys == Firsts(r)
    && forall k :: k in m ==> NoDuplicates(m[k]) && Elements(m[k]) == Image(r, k)
  }

  /** `mapping[k].append(v)` */
  function Append<K, V>(m: map<K, seq<V>>, k: K, v: V): map<K, seq<V>> {
    m[k := (if k in m then m[k] else []) + [v]]
  }

  lemma BagAppend<K(!new), V(!new)>(m: map<K, seq<V>>, r: set<(K, V)>, k: K, v: V)
    requires Bag(m, r) && (k, v) !in r
    ensures Bag(Append(m, k, v), r + {(k, v)})
  {
    var m' := Append(m, k, v);
    FirstsAdd(r, k, v);
    ImageOutside(r, k);
    forall x | x in m' ensures NoDuplicates(m'[x]) && Elements(m'[x]) == Image(r + {(k, v)}, x) {
      ImageAdd(r, k, v, x);
      if x == k {
        ImageMember(r, k, v);
        var front := if k in m then m[k] else [];
        assert Elements(front) == Image(r, k);
        assert v !in Elements(front);
        ElementsConcat(front, [v]);
      }
    }
  }

  /** The relation with one more pair, when there is a key to pair the value with. */
  ghost function With<K(!new), V(!new)>(r: set<(K, V)>, k: Option<K>, v: V): set<(K, V)> {
    if k.Some? then r + {(k.value, v)} else r
  }

  /** `if k: mapping[k].append(v)` */
  function AppendIf<K, V>(m: map<K, seq<V>>, k: Option<K>, v: V): map<K, seq<V>> {
    if k.Some? then Append(m, k.value, v) else m
  }

  lemma BagAppendIf<K(!new), V(!new)>(m: map<K, seq<V>>, r: set<(K, V)>, k: Option<K>, v: V)
    requires Bag(m, r) && (k.Some? ==> (k.value, v) !in r)
    ensures Bag(AppendIf(m, k, v), With(r, k, v))
  {
    if k.Some? { BagAppend(m, r, k.value, v); }
  }

  /** `for items in mapping.values(): items.sort(key=rank)` */
  function SortAll<K, V>(m: map<K, seq<V>>, rank: V -> Rank): map<K, seq<V>> {
    map k | k in m :: SortBy(m[k], rank)
  }

  lemma BagSorted<K(!new), V(!new)>(m: map<K, seq<V>>, r: set<(K, V)>, rank: V -> Rank)
    requires Bag(m, r) && Distinct(Seconds(r), rank)
    ensures SortAll(m, rank) == Listings(r, rank)
  {
    forall k | k in m ensures SortBy(m[k], rank) == Listing(Image(r, k), rank) {
      ImageDistinct(r, k, rank);
      SortByListing(m[k], Image(r, k), rank);
    }
    assert SortAll(m, rank).Keys == Listings(r, rank).Keys;
  }

  lemma EmptyRelation<K(!new), V(!new)>(rank: V -> Rank)
    ensures Bag<K, V>(map[], {}) && Group<K, V>({}) == map[] && Listings<K, V>({}, rank) == map[]
  {
    assert Firsts<K, V>({}) == {};
  }

  // ---------------------------------------------------------------- loops over a dictionary

  /** A loop over a dictionary: the part already visited is `m - todo`. */
  lemma Visit<K(!new), T(!new)>(m: map<K, T>, todo: set<K>, k: K)
    requires k in todo && k in m
    ensures (m - todo)[k := m[k]] == m - (todo - {k})
    ensures k !in m - todo
  {
    assert ((m - todo)[k := m[k]]).Keys == (m - (todo - {k})).Keys;
  }

  lemma VisitEnds<K(!new), T(!new)>(m: map<K, T>)
    ensures m - m.Keys == map[]
    ensures m - {} == m
  {
  }
}
