/** larson.cpp: the generator lran2, a linear congruential generator behind a shuffle table. */
module Lran2 {

  const LRAN2_MAX := 714025
  const IA := 1366
  const IC := 150889
  const TABLE := 97

  /** The remainder of C, which truncates towards zero. */
  function CRem(a: int, m: int): int
    requires m > 0
  {
    if a >= 0 then a % m else -((-a) % m)
  }

  // ----- the congruential step

  function F(x: int): int { (IA * x + IC) % LRAN2_MAX }

  function Iter(x: int, n: nat): int {
    if n == 0 then x else F(Iter(x, n - 1))
  }

  lemma {:induction false} IterRange(x: int, n: nat)
    requires 0 <= x < LRAN2_MAX
    ensures 0 <= Iter(x, n) < LRAN2_MAX
  {
    if n == 0 {
    } else {
      IterRange(x, n - 1);
    }
  }

  lemma {:induction false} IterAdd(x: int, m: nat, n: nat)
    ensures Iter(Iter(x, m), n) == Iter(x, m + n)
  {
    if n == 0 {
    } else {
      IterAdd(x, m, n - 1);
    }
  }

  // ----- its period: a sum of powers, divided exactly by LRAN2_MAX when n is

  predicate Div(a: int) { a % LRAN2_MAX == 0 }

  lemma DivIs(q: int)
    ensures Div(LRAN2_MAX * q)
  {
  }

  lemma DivMul(a: int, k: int)
    requires Div(a)
    ensures Div(a * k) && Div(k * a)
  {
    var q := a / LRAN2_MAX;
    assert a == LRAN2_MAX * q;
    assert a * k == LRAN2_MAX * (q * k);
    DivIs(q * k);
  }

  lemma DivSum(a: int, b: int)
    requires Div(a)
    ensures Div(a + b) <==> Div(b)
  {
  }

  /** 65^4 is 25 times LRAN2_MAX. */
  lemma FourthPower(k: int)
    ensures Div((65 * k) * (65 * k) * (65 * k) * (65 * k))
  {
    var k2 := k * k;
    assert (65 * k) * (65 * k) == 4225 * k2;
    assert (4225 * k2) * (65 * k) * (65 * k) == (4225 * k2) * (4225 * k2);
    assert (4225 * k2) * (4225 * k2) == 17850625 * (k2 * k2);
    DivIs(25 * (k2 * k2));
  }

  /** A number that is 24 modulo 65 has no factor in common with LRAN2_MAX. */
  lemma Cancel(n: int, w: int)
    ensures Div(n * (24 + 65 * w)) <==> Div(n)
  {
    var u := 24 + 65 * w;
    if Div(n) { DivMul(n, u); }
    if Div(n * u) {
      var k := 7 + 19 * w;
      var e := 65 * k;
      assert u * 19 == 1 + e;
      var s := 1 - e + e * e - e * e * e;
      DivMul(n * u, 19 * s);
      Inverse(n, u, e, s);
      FourthPower(k);
      DivMul(e * e * e * e, n);
      DivSum(n * (e * e * e * e), n - n * (e * e * e * e));
    }
  }

  lemma Inverse(n: int, u: int, e: int, s: int)
    requires u * 19 == 1 + e && s == 1 - e + e * e - e * e * e
    ensures (n * u) * (19 * s) == n - n * (e * e * e * e)
  {
    assert (1 + e) * s == 1 - e * e * e * e by {
      assert e * s == e - e * e + e * e * e - e * e * e * e;
    }
    assert (n * u) * (19 * s) == n * ((u * 19) * s);
  }

  /** 1 + IA + ... + IA^(n-1). */
  function Sum(n: nat): nat {
    if n == 0 then 0 else IA * Sum(n - 1) + 1
  }

  /** The terms of the binomial expansion of Sum that LRAN2_MAX divides, over (IA - 1)^4. */
  function Rest(n: nat): int {
    if n == 0 then 0 else IA * Rest(n - 1) + (n - 1) * (n - 2) * (n - 3) * (n - 4)
  }

  function Fall2(n: int): int { n * (n - 1) }
  function Fall3(n: int): int { Fall2(n) * (n - 2) }
  function Fall4(n: int): int { Fall3(n) * (n - 3) }

  lemma FallNext(n: int)
    ensures Fall2(n + 1) == Fall2(n) + 2 * n
    ensures Fall3(n + 1) == Fall3(n) + 3 * Fall2(n)
    ensures Fall4(n + 1) == Fall4(n) + 4 * Fall3(n)
  {
    assert Fall3(n + 1) == (n + 1) * Fall2(n);
    assert Fall4(n + 1) == (n + 1) * Fall3(n) by {
      assert Fall3(n + 1) * (n - 2) == (n + 1) * (Fall2(n) * (n - 2));
    }
  }

  /** The binomial expansion of 24 * Sum(n) in IA - 1 = 1365, up to multiples of 1365^4. */
  lemma {:induction false} Expansion(n: nat)
    ensures 24 * Sum(n) ==
      24 * n + 16380 * Fall2(n) + 7452900 * Fall3(n) + 2543302125 * Fall4(n) + 3471607400625 * Rest(n)
  {
    if n == 0 {
    } else {
      Expansion(n - 1);
      FallNext(n - 1);
      assert Rest(n) == IA * Rest(n - 1) + Fall4(n - 1);
      hide Fall2, Fall3, Fall4, Rest;
    }
  }

  lemma Distribute(n: int, a: int, b: int, c: int)
    ensures n * (24 + 65 * (252 * a + 114660 * b + 39127725 * c)) ==
      24 * n + 16380 * (n * a) + 7452900 * (n * b) + 2543302125 * (n * c)
  {
  }

  /** LRAN2_MAX divides the sum of n powers exactly when it divides n. */
  lemma SumDivides(n: nat)
    ensures Div(Sum(n)) <==> Div(n)
  {
    hide Sum, Rest, Div;
    var a, b := n - 1, (n - 1) * (n - 2);
    var c := b * (n - 3);
    var w := 252 * a + 114660 * b + 39127725 * c;
    Expansion(n);
    FallProducts(n);
    Distribute(n, a, b, c);
    assert 24 * Sum(n) == 3471607400625 * Rest(n) + n * (24 + 65 * w);
    DivIs(4862025);
    DivMul(3471607400625, Rest(n));
    DivSum(3471607400625 * Rest(n), n * (24 + 65 * w));
    Cancel(n, w);
    Cancel(Sum(n), 0);
  }

  lemma FallProducts(n: int)
    ensures Fall2(n) == n * (n - 1) && Fall3(n) == n * ((n - 1) * (n - 2))
    ensures Fall4(n) == n * ((n - 1) * (n - 2) * (n - 3))
  {
  }

  /** The orbit of x without the reductions. */
  lemma {:induction false} ClosedForm(x: int, n: nat)
    ensures 0 <= x < LRAN2_MAX ==> Iter(x, n) == (x + Sum(n) * (1365 * x + IC)) % LRAN2_MAX
  {
    if n == 0 {
    } else {
      ClosedForm(x, n - 1);
      var q := 1365 * x + IC;
      var h := x + Sum(n - 1) * q;
      assert (IA * Sum(n - 1) + 1) * q == IA * (Sum(n - 1) * q) + q;
      assert x + Sum(n) * q == IA * h + IC;
      Reduce(h);
    }
  }

  lemma Reduce(h: int)
    ensures F(h % LRAN2_MAX) == (IA * h + IC) % LRAN2_MAX
  {
    var q, r := h / LRAN2_MAX, h % LRAN2_MAX;
    assert IA * h + IC == LRAN2_MAX * (IA * q) + (IA * r + IC);
  }

  /** The full period: from any x, the generator is back at x exactly at the multiples of LRAN2_MAX. */
  lemma FullPeriod(x: int, n: nat)
    requires 0 <= x < LRAN2_MAX
    ensures Iter(x, n) == x <==> n % LRAN2_MAX == 0
  {
    hide Sum, Iter;
    ClosedForm(x, n);
    SumDivides(n);
    assert 1365 * x + IC == 24 + 65 * (21 * x + 2321);
    Cancel(Sum(n), 21 * x + 2321);
    BackAt(x, Sum(n) * (1365 * x + IC));
  }

  lemma BackAt(x: int, d: int)
    requires 0 <= x < LRAN2_MAX
    ensures (x + d) % LRAN2_MAX == x <==> Div(d)
  {
  }

  /** Fewer than LRAN2_MAX consecutive values are pairwise distinct. */
  lemma IterDistinct(x: int, i: nat, j: nat)
    requires 0 <= x < LRAN2_MAX && i < j < i + LRAN2_MAX
    ensures Iter(x, i) != Iter(x, j)
  {
    hide Iter;
    IterRange(x, i);
    IterAdd(x, i, j - i);
    FullPeriod(Iter(x, i), j - i);
  }

  // ----- the shuffle table

  /** x: the last value generated. y: the last one returned. v: the shuffle table. */
  datatype State = State(x: int, y: int, v: seq<int>)

  function FirstX(seed: int): (x: int)
    ensures 0 <= x < LRAN2_MAX
  {
    var x := CRem(IC - seed, LRAN2_MAX);
    if x < 0 then -x else x
  }

  /** The values Iter(x, from), ..., Iter(x, from + n - 1). */
  function Values(x: int, from: nat, n: nat): (s: seq<int>)
    ensures |s| == n
    ensures forall i :: 0 <= i < n ==> s[i] == Iter(x, from + i)
  {
    seq(n, (i: nat) => Iter(x, from + i))
  }

  /** The state after lran2_init. */
  function Seeded(seed: int): State {
    var x := FirstX(seed);
    State(Iter(x, TABLE + 1), Iter(x, TABLE + 1), Values(x, 1, TABLE))
  }

  /** Seeds at the same distance d from 150889, on either side, give the same state, and its table
      begins with the successor of d modulo 714025. */
  lemma SeedSymmetric(d: nat)
    ensures Seeded(150889 + d) == Seeded(150889 - d)
    ensures |Seeded(150889 + d).v| == 97
    ensures Seeded(150889 + d).v[0] == (1366 * (d % 714025) + 150889) % 714025
  {
    var x := d % LRAN2_MAX;
    assert FirstX(150889 + d) == FirstX(150889 - d) == x;
    assert Iter(x, 1) == F(Iter(x, 0)) && Iter(x, 0) == x;
  }

  predicate Sane(st: State) {
    |st.v| == TABLE && 0 <= st.x < LRAN2_MAX && 0 <= st.y < LRAN2_MAX
    && forall i :: 0 <= i < TABLE ==> 0 <= st.v[i] < LRAN2_MAX
  }

  /** lran2: the new y is what it returns. */
  function Draw(st: State): (st': State)
    requires Sane(st)
    ensures Sane(st')
  {
    var j := st.y % TABLE;
    State(F(st.x), st.v[j], st.v[j := F(st.x)])
  }

  function Draws(st: State, n: nat): (st': State)
    requires Sane(st)
    ensures Sane(st')
  {
    if n == 0 then st else Draw(Draws(st, n - 1))
  }

  /** What n calls return. */
  function Outputs(st: State, n: nat): (s: seq<int>)
    requires Sane(st)
    ensures |s| == n && forall i :: 0 <= i < n ==> s[i] == Draws(st, i + 1).y
  {
    if n == 0 then [] else Outputs(st, n - 1) + [Draws(st, n).y]
  }

  lemma SeededSane(seed: int)
    ensures Sane(Seeded(seed))
  {
    var x := FirstX(seed);
    forall i: nat ensures 0 <= Iter(x, i) < LRAN2_MAX { IterRange(x, i); }
  }

  lemma {:induction false} DrawsX(st: State, n: nat)
    requires Sane(st)
    ensures Draws(st, n).x == Iter(st.x, n)
  {
    if n == 0 {
    } else {
      DrawsX(st, n - 1);
    }
  }

  /** What a call returns was chosen by what the call before returned: it is the table entry there,
      which the value generated replaces. */
  lemma ChosenByLast(st: State, n: nat)
    requires Sane(st) && n >= 1
    ensures |Outputs(st, n)| == n && |Draws(st, n - 1).v| == 97
    ensures var last := if n == 1 then st.y else Outputs(st, n)[n - 2];
      && last >= 0
      && Outputs(st, n)[n - 1] == Draws(st, n - 1).v[last % 97]
      && Draws(st, n).v == Draws(st, n - 1).v[last % 97 := Iter(st.x, n)]
  {
    hide Iter, F;
    DrawsX(st, n);
    if n > 1 { assert Outputs(st, n)[n - 2] == Draws(st, n - 1).y; }
  }

  lemma Swapped(v: seq<int>, j: nat, z: int)
    requires j < |v|
    ensures multiset(v[j := z]) + multiset{v[j]} == multiset(v) + multiset{z}
  {
  }

  /** Conservation: what has been returned and what is in the table are together the first table
      and the values generated since. */
  lemma {:induction false} Conservation(st: State, n: nat)
    requires Sane(st)
    ensures multiset(Outputs(st, n)) + multiset(Draws(st, n).v) == multiset(st.v) + multiset(Values(st.x, 1, n))
  {
    if n == 0 {
      assert Values(st.x, 1, 0) == [];
    } else {
      hide Sane, F, Draw, Values;
      Conservation(st, n - 1);
      var s := Draws(st, n - 1);
      DrawsX(st, n - 1);
      Turn(s);
      ValuesNext(st.x, n);
      Balance(multiset(Outputs(st, n - 1)), multiset(s.v), multiset(st.v), multiset(Values(st.x, 1, n - 1)),
              Draw(s).y, F(s.x), multiset(Draw(s).v));
    }
  }

  lemma ValuesNext(x: int, n: nat)
    requires n > 0
    ensures multiset(Values(x, 1, n)) == multiset(Values(x, 1, n - 1)) + multiset{F(Iter(x, n - 1))}
  {
    assert Values(x, 1, n) == Values(x, 1, n - 1) + [F(Iter(x, n - 1))];
  }

  /** A call exchanges what it returns for the value it generates. */
  lemma Turn(s: State)
    requires Sane(s)
    ensures multiset(Draw(s).v) + multiset{Draw(s).y} == multiset(s.v) + multiset{F(s.x)}
  {
    Swapped(s.v, s.y % TABLE, F(s.x));
  }

  lemma Balance(o: multiset<int>, t: multiset<int>, i: multiset<int>, g: multiset<int>,
                e: int, z: int, t': multiset<int>)
    requires o + t == i + g && t' + multiset{e} == t + multiset{z}
    ensures o + multiset{e} + t' == i + (g + multiset{z})
  {
    assert o + multiset{e} + t' == o + (t' + multiset{e});
    assert o + (t + multiset{z}) == (o + t) + multiset{z};
    assert (i + g) + multiset{z} == i + (g + multiset{z});
  }

  // ----- the first outputs are distinct

  ghost predicate Distinct(s: seq<int>) {
    forall i, j :: 0 <= i < j < |s| ==> s[i] != s[j]
  }

  lemma {:induction false} DistinctCount(s: seq<int>, e: int)
    requires Distinct(s)
    ensures multiset(s)[e] <= 1
  {
    if s == [] {
    } else {
      DistinctCount(s[1..], e);
      assert s == [s[0]] + s[1..];
      if e == s[0] { assert e !in s[1..]; }
    }
  }

  lemma CountDistinct(s: seq<int>)
    requires forall e :: multiset(s)[e] <= 1
    ensures Distinct(s)
  {
    forall i, j | 0 <= i < j < |s| ensures s[i] != s[j] {
      assert s == s[..j] + s[j..];
      assert s[i] == s[..j][i] && s[j] == s[j..][0];
      assert multiset(s)[s[i]] <= 1;
    }
  }

  /** After seeding, the table and the values still to come are 97 values of the period, one
      left out, and the ones after it. */
  lemma IssuedDistinct(seed: int, n: nat)
    requires n <= LRAN2_MAX - TABLE - 1
    ensures Distinct(Seeded(seed).v + Values(Seeded(seed).x, 1, n))
    ensures Seeded(seed).y !in Seeded(seed).v + Values(Seeded(seed).x, 1, n)
  {
    hide Iter;
    var x := FirstX(seed);
    var s := Seeded(seed).v + Values(Seeded(seed).x, 1, n);
    forall i | 0 <= i < |s| ensures s[i] == Iter(x, Index(i)) {
      if i >= TABLE { IterAdd(x, TABLE + 1, 1 + i - TABLE); }
    }
    forall i, j | 0 <= i < j < |s| ensures s[i] != s[j] { IterDistinct(x, Index(i), Index(j)); }
    forall i | 0 <= i < |s| ensures s[i] != Seeded(seed).y {
      if i < TABLE { IterDistinct(x, Index(i), TABLE + 1); } else { IterDistinct(x, TABLE + 1, Index(i)); }
    }
  }

  /** Position in the orbit of the i-th value that enters the table. */
  function Index(i: nat): nat { if i < TABLE then i + 1 else i + 2 }

  /** What a call returns was in the table before: the outputs so far and the table together
      hold it once more. */
  lemma OutputsInTable(st: State, n: nat, e: int)
    requires Sane(st) && n >= 1
    ensures multiset(Outputs(st, n))[e] <= multiset(Outputs(st, n - 1))[e] + multiset(Draws(st, n - 1).v)[e]
  {
    hide Sane, Outputs;
    var s := Draws(st, n - 1);
    var j := s.y % TABLE;
    LastOutput(st, n);
    assert Draw(s).y == s.v[j] && s.v[j] in multiset(s.v);
  }

  lemma LastOutput(st: State, n: nat)
    requires Sane(st) && n >= 1
    ensures multiset(Outputs(st, n)) == multiset(Outputs(st, n - 1)) + multiset{Draw(Draws(st, n - 1)).y}
    ensures |Draws(st, n - 1).v| == TABLE && 0 <= Draws(st, n - 1).y
  {
  }

  lemma AtMostOnce(st: State, n: nat, e: int)
    requires Sane(st) && n >= 1 && Distinct(st.v + Values(st.x, 1, n - 1))
    ensures multiset(Outputs(st, n))[e] <= 1
    ensures e in Outputs(st, n) ==> e in st.v + Values(st.x, 1, n - 1)
  {
    hide Sane, Outputs, Draws, Values, Distinct;
    var all := st.v + Values(st.x, 1, n - 1);
    Conservation(st, n - 1);
    DistinctCount(all, e);
    OutputsInTable(st, n, e);
    assert multiset(all)[e] == multiset(Outputs(st, n - 1))[e] + multiset(Draws(st, n - 1).v)[e];
    assert e in Outputs(st, n) <==> multiset(Outputs(st, n))[e] > 0;
    assert e in all <==> multiset(all)[e] > 0;
  }

  /** For every seed, the first 713928 outputs are pairwise distinct, lie in [0, LRAN2_MAX), and
      leave out the first y. */
  lemma OutputsDistinct(seed: int, n: nat)
    requires n <= LRAN2_MAX - TABLE
    ensures Sane(Seeded(seed))
    ensures var s := Outputs(Seeded(seed), n);
      Distinct(s) && Seeded(seed).y !in s && forall i :: 0 <= i < n ==> 0 <= s[i] < LRAN2_MAX
  {
    hide Iter, Draws, Values;
    SeededSane(seed);
    if n > 0 {
      var st := Seeded(seed);
      var s := Outputs(st, n);
      IssuedDistinct(seed, n - 1);
      forall e ensures multiset(s)[e] <= 1 { AtMostOnce(st, n, e); }
      AtMostOnce(st, n, st.y);
      CountDistinct(s);
    }
  }

  // ----- the functions themselves

  class Generator {
    var x: int
    var y: int
    const v: array<int>

    ghost function Snapshot(): State
      reads this, v
    {
      State(x, y, v[..])
    }

    ghost predicate Valid()
      reads this, v
    {
      v.Length == TABLE && Sane(Snapshot())
    }

    /** lran2_init. */
    constructor (seed: int)
      ensures Valid() && Snapshot() == Seeded(seed) && fresh(v)
      ensures v.Length == 97 && y == x == (1366 * v[96] + 150889) % 714025
      ensures forall j :: 0 < j < 97 ==> v[j] == (1366 * v[j - 1] + 150889) % 714025
    {
      var x0 := CRem(IC - seed, LRAN2_MAX);
      if x0 < 0 { x0 := -x0; }
      ghost var start := x0;
      v := new int[TABLE];
      x, y := 0, 0;
      new;
      var j := 0;
      while j < TABLE
        invariant 0 <= j <= TABLE && x0 == Iter(start, j) && 0 <= x0 < LRAN2_MAX
        invariant forall i :: 0 <= i < j ==> v[i] == Iter(start, i + 1)
      {
        x0 := CRem(IA * x0 + IC, LRAN2_MAX);
        v[j] := x0;
        j := j + 1;
      }
      x := CRem(IA * x0 + IC, LRAN2_MAX);
      y := x;
      SeededSane(seed);
      assert v[..] == Values(start, 1, TABLE);
    }

    /** lran2. */
    method Next() returns (r: int)
      requires Valid()
      modifies this, v
      ensures Valid() && Snapshot() == Draw(old(Snapshot()))
      ensures r == y == old(v[..])[old(y) % 97] && v[..] == old(v[..])[old(y) % 97 := x]
      ensures x == (1366 * old(x) + 150889) % 714025
    {
      var j := y % TABLE;
      y := v[j];
      x := CRem(IA * x + IC, LRAN2_MAX);
      v[j] := x;
      r := y;
    }
  }
}
