/** What the wire-up loops compute: connect and accept sets match level by level, and
    the pairs that end up connected are characterised exactly. */
module Topology {
  import opened Wiring

  /** PE c runs its connect loop at `level` and that loop reaches s. */
  ghost predicate ConnectsTo(pl: Placement, c: nat, s: nat, level: nat)
    requires c < pl.N() && s < pl.N()
  {
    && level < Levels(pl.N())
    && Reaches(c, level) && !IsServer(c, level)
    && s in Walk(pl, c, ClientStart(c, level), Stride(level))
  }

  /** PE s runs its accept loop at `level` and that loop counts c. */
  ghost predicate Counts(pl: Placement, s: nat, c: nat, level: nat)
    requires c < pl.N() && s < pl.N()
  {
    && level < Levels(pl.N())
    && Reaches(s, level) && IsServer(s, level)
    && c in Walk(pl, s, ServerStart(s, level), Stride(level))
  }

  // ---- Residues decide roles ----

  /** A residue of at most 1 survives halving the modulus. */
  lemma {:induction false} ResidueDown(x: nat, j: nat, k: nat)
    requires 1 <= j <= k && x % Pow2(k) == x % 2
    ensures x % Pow2(j) == x % 2
    decreases k
  {
    if j < k {
      Pow2Monotone(1, k - 1);
      ModDouble(x, Pow2(k - 1));
      ResidueDown(x, j, k - 1);
    }
  }

  /** At positive levels both parities serve on the same test. */
  lemma ServesByResidue(me: nat, level: nat)
    requires level > 0
    ensures IsServer(me, level) <==> me % Stride(level) == me % 2
  {
    if me % 2 == 0 {} else {}
  }

  lemma ReachesByResidue(me: nat, level: nat)
    requires level > 0
    ensures Reaches(me, level) <==> me % Pow2(level) == me % 2
  {
    if Reaches(me, level) && level > 1 {
      ServesByResidue(me, level - 1);
    }
    if me % Pow2(level) == me % 2 {
      forall l: nat | 0 < l < level ensures IsServer(me, l) {
        ResidueDown(me, l + 1, level);
        ServesByResidue(me, l);
      }
    }
  }

  /** Who is a client at a positive level: exactly one residue class. */
  lemma ClientResidue(me: nat, level: nat)
    requires level > 0
    ensures Reaches(me, level) && !IsServer(me, level) <==> me % Stride(level) == me % 2 + Pow2(level)
  {
    Pow2Monotone(1, level);
    ModDouble(me, Pow2(level));
    ReachesByResidue(me, level);
    ServesByResidue(me, level);
  }

  lemma ServerResidue(me: nat, level: nat)
    requires level > 0
    ensures Reaches(me, level) && IsServer(me, level) <==> me % Stride(level) == me % 2
  {
    Pow2Monotone(1, level);
    ModDouble(me, Pow2(level));
    ReachesByResidue(me, level);
    ServesByResidue(me, level);
  }

  lemma {:induction false} ParityOfResidue(x: nat, k: nat)
    requires k >= 1
    ensures (x % Pow2(k)) % 2 == x % 2
  {
    var q, r := QuotientAndRest(x, Pow2(k));
    EvenMultiple(x, Pow2(k - 1), q, r);
  }

  lemma EvenMultiple(x: int, m: int, q: int, r: int)
    requires x == (2 * m) * q + r
    ensures x % 2 == r % 2
  {
    var t := m * q;
    assert (2 * m) * q == 2 * t;
  }

  // ---- Membership in the stride loops ----

  predicate Divides(m: nat, d: nat)
    requires m > 0
  {
    d % m == 0
  }

  lemma WalkMembers(pl: Placement, me: nat, i: nat, stride: nat, x: nat)
    requires me < pl.N() && stride > 0
    ensures x in Walk(pl, me, i, stride) <==> i <= x < pl.N() && (x - i) % stride == 0 && pl.Remote(me, x)
  {
    WalkDivides(pl, me, i, stride, x);
  }

  lemma {:induction false} WalkDivides(pl: Placement, me: nat, i: nat, stride: nat, x: nat)
    requires me < pl.N() && stride > 0
    ensures x in Walk(pl, me, i, stride) <==> i <= x < pl.N() && Divides(stride, x - i) && pl.Remote(me, x)
    decreases pl.N() - i
  {
    hide Divides, Walk;
    WalkFirst(pl, me, i, stride, x);
    if i < pl.N() {
      WalkDivides(pl, me, i + stride, stride, x);
      if i <= x { StrideBack(i, stride, x); }
    }
  }

  lemma WalkFirst(pl: Placement, me: nat, i: nat, stride: nat, x: nat)
    requires me < pl.N() && stride > 0
    ensures x in Walk(pl, me, i, stride) <==>
            i < pl.N() && ((x == i && pl.Remote(me, i)) || x in Walk(pl, me, i + stride, stride))
  {}

  lemma StrideBack(i: nat, stride: nat, x: nat)
    requires i <= x && stride > 0
    ensures Divides(stride, x - i) <==> x == i || (i + stride <= x && Divides(stride, x - (i + stride)))
  {
    if i + stride <= x {
      StepBack(x - i, stride);
    } else {
      SmallResidue(x - i, stride);
    }
  }

  lemma SmallResidue(d: nat, m: nat)
    requires d < m
    ensures d % m == d
  {
    assert m * 0 == 0;
    DivModUnique(d, m, 0, d);
  }

  lemma StepBack(d: nat, stride: nat)
    requires d >= stride > 0
    ensures Divides(stride, d - stride) <==> Divides(stride, d)
  {
    var q, r := (d - stride) / stride, (d - stride) % stride;
    assert d - stride == stride * q + r;
    assert d == stride * (q + 1) + r;
    DivModUnique(d, stride, q + 1, r);
  }

  /** The connect loop visits one residue class of remote PEs. */
  lemma ClientVisits(pl: Placement, c: nat, level: nat, s: nat)
    requires c < pl.N() && s < pl.N()
    ensures s in Walk(pl, c, ClientStart(c, level), Stride(level))
       <==> pl.Remote(c, s) && s % Stride(level) == ClientStart(c, level)
  {
    WalkMembers(pl, c, ClientStart(c, level), Stride(level), s);
    if s >= ClientStart(c, level) {
      ModShift(ClientStart(c, level), s, Stride(level));
    }
  }

  /** The accept loop counts one residue class of remote PEs. */
  lemma ServerVisits(pl: Placement, s: nat, level: nat, c: nat)
    requires c < pl.N() && s < pl.N() && IsServer(s, level)
    ensures Stride(level) == 2 * Pow2(level)
    ensures c in Walk(pl, s, ServerStart(s, level), Stride(level))
       <==> pl.Remote(s, c) && c % Stride(level) == s % 2 + Pow2(level)
  {
    var start, stride := ServerStart(s, level), Stride(level);
    assert start == s % 2 + Pow2(level) < stride by {
      if level > 0 { Pow2Monotone(1, level); }
    }
    WalkMembers(pl, s, start, stride, c);
    if c >= start {
      ModShift(start, c, stride);
    } else {
      SmallResidue(c, stride);
    }
  }

  // ---- Matching ----

  lemma ResidueMatch(rc: nat, rs: nat, pc: nat, ps: nat, m: nat)
    requires pc == rc % 2 && ps == rs % 2 && m % 2 == 0
    ensures rc == pc + m && rs == pc <==> rs == ps && rc == ps + m
  {}

  lemma ConnectsByResidue(pl: Placement, c: nat, s: nat, level: nat)
    requires c < pl.N() && s < pl.N() && level > 0
    ensures ConnectsTo(pl, c, s, level)
       <==> && level < Levels(pl.N()) && pl.Remote(c, s)
            && c % Stride(level) == c % 2 + Pow2(level) && s % Stride(level) == c % 2
  {
    ClientVisits(pl, c, level, s);
    ClientResidue(c, level);
    assert ClientStart(c, level) == c % 2 by { Pow2Monotone(1, level); }
  }

  lemma CountsByResidue(pl: Placement, s: nat, c: nat, level: nat)
    requires c < pl.N() && s < pl.N() && level > 0
    ensures Counts(pl, s, c, level)
       <==> && level < Levels(pl.N()) && pl.Remote(c, s)
            && s % Stride(level) == s % 2 && c % Stride(level) == s % 2 + Pow2(level)
  {
    ServerResidue(s, level);
    if IsServer(s, level) { ServerVisits(pl, s, level, c); }
  }

  lemma MatchAtZero(pl: Placement, c: nat, s: nat)
    requires c < pl.N() && s < pl.N()
    ensures ConnectsTo(pl, c, s, 0) <==> Counts(pl, s, c, 0)
  {
    ClientVisits(pl, c, 0, s);
    if IsServer(s, 0) { ServerVisits(pl, s, 0, c); }
  }

  lemma MatchAbove(pl: Placement, c: nat, s: nat, level: nat)
    requires c < pl.N() && s < pl.N() && level > 0
    ensures ConnectsTo(pl, c, s, level) <==> Counts(pl, s, c, level)
  {
    hide ConnectsTo, Counts;
    var rc, rs, pc, ps, m := Residues(c, s, level);
    ResidueMatch(rc, rs, pc, ps, m);
    assert rc == c % Stride(level) && rs == s % Stride(level);
    ConnectsByResidue(pl, c, s, level);
    CountsByResidue(pl, s, c, level);
  }

  lemma Residues(c: nat, s: nat, level: nat) returns (rc: nat, rs: nat, pc: nat, ps: nat, m: nat)
    requires level > 0
    ensures rc == c % Stride(level) && rs == s % Stride(level) && pc == c % 2 && ps == s % 2 && m == Pow2(level)
    ensures pc == rc % 2 && ps == rs % 2 && m % 2 == 0
  {
    rc, rs, pc, ps, m := c % Stride(level), s % Stride(level), c % 2, s % 2, Pow2(level);
    StrideParity(c, level);
    StrideParity(s, level);
  }

  lemma StrideParity(x: nat, level: nat)
    ensures (x % Stride(level)) % 2 == x % 2
  {
    ParityOfResidue(x, level + 1);
  }

  /** In numbers: at level 0 every odd PE connects to every even one; at a higher level the PEs that
      are 2^level modulo 2^(level + 1), counted from their parity, connect to those of their parity
      that are 0. */
  ghost predicate MeetsAt(pl: Placement, c: nat, s: nat, level: nat)
    requires c < pl.N() && s < pl.N()
  {
    && level < Levels(pl.N()) && pl.Remote(c, s)
    && if level == 0 then c % 2 == 1 && s % 2 == 0
       else c % Pow2(level + 1) == c % 2 + Pow2(level) && s % Pow2(level + 1) == c % 2
  }

  /** Who connects to whom, and when. */
  lemma ConnectsExactly(pl: Placement, c: nat, s: nat, level: nat)
    requires c < pl.N() && s < pl.N()
    ensures ConnectsTo(pl, c, s, level) <==> MeetsAt(pl, c, s, level)
  {
    if level == 0 {
      ClientVisits(pl, c, 0, s);
      assert Stride(0) == 2;
    } else {
      ConnectsByResidue(pl, c, s, level);
    }
  }

  /** At every level, the clients that connect to s are exactly the PEs s counts. */
  lemma ConnectMatchesAccept(pl: Placement, c: nat, s: nat, level: nat)
    requires c < pl.N() && s < pl.N()
    ensures ConnectsTo(pl, c, s, level) <==> Counts(pl, s, c, level)
  {
    if level == 0 {
      MatchAtZero(pl, c, s);
    } else {
      MatchAbove(pl, c, s, level);
    }
  }

  /** Opposite parities meet at level 0 only, equal parities at a positive level. */
  lemma ConnectParity(pl: Placement, c: nat, s: nat, level: nat)
    requires c < pl.N() && s < pl.N() && ConnectsTo(pl, c, s, level)
    ensures pl.Remote(c, s)
    ensures level == 0 <==> c % 2 != s % 2
    ensures level == 0 ==> c % 2 == 1
    ensures IsServer(s, level) && Reaches(s, level)
    ensures level > 0 ==> c % Stride(level) == c % 2 + Pow2(level) && s % Stride(level) == s % 2
  {
    ConnectMatchesAccept(pl, c, s, level);
    ClientVisits(pl, c, level, s);
    if level > 0 {
      ClientResidue(c, level);
      ServerResidue(s, level);
      Pow2Monotone(1, level);
      ParityOfResidue(s, level + 1);
    }
  }

  /** A PE is a client at no more than one positive level. */
  lemma ClientLevelUnique(me: nat, j: nat, k: nat)
    requires 0 < j < k && Reaches(me, j) && !IsServer(me, j)
    ensures !Reaches(me, k)
  {}

  /** A pair connects at most once, in one direction. */
  lemma ConnectOnce(pl: Placement, a: nat, b: nat, j: nat, k: nat)
    requires a < pl.N() && b < pl.N() && ConnectsTo(pl, a, b, j)
    ensures ConnectsTo(pl, a, b, k) ==> j == k
    ensures !ConnectsTo(pl, b, a, k)
  {
    ConnectParity(pl, a, b, j);
    if ConnectsTo(pl, a, b, k) {
      ConnectParity(pl, a, b, k);
      if 0 < j < k { ClientLevelUnique(a, j, k); }
      if 0 < k < j { ClientLevelUnique(a, k, j); }
    }
    if ConnectsTo(pl, b, a, k) {
      ConnectParity(pl, b, a, k);
      // Both positive: the one with the lower client level would have to serve above it.
      if j <= k {
        assert Reaches(a, k) && IsServer(a, k);
        if j < k { ClientLevelUnique(a, j, k); }
      } else {
        assert Reaches(b, j) && IsServer(b, j);
        ClientLevelUnique(b, k, j);
      }
    }
  }

  // ---- Exact wiring ----

  ghost predicate Wired(pl: Placement, a: nat, b: nat)
    requires a < pl.N() && b < pl.N()
  {
    exists level: nat :: ConnectsTo(pl, a, b, level) || ConnectsTo(pl, b, a, level)
  }

  /** The power of two dividing a number; nothing bounds it for 0. */
  datatype Twos = Infinite | Finite(exponent: nat)

  function TwosIn(x: nat): Twos
  {
    if x == 0 then Infinite
    else if x % 2 == 1 then Finite(0)
    else match TwosIn(x / 2)
         case Infinite => Infinite
         case Finite(e) => Finite(e + 1)
  }

  /** TwosIn counts what the residue tests see. */
  lemma {:induction false} TwosDivide(x: nat, k: nat)
    ensures x % Pow2(k) == 0 <==> TwosIn(x) == Infinite || TwosIn(x).exponent >= k
    ensures TwosIn(x) == Infinite <==> x == 0
    decreases x, k
  {
    if x == 0 {
      assert 0 % Pow2(k) == 0;
    } else if x % 2 == 1 {
      if k > 0 { ParityOfResidue(x, k); }
    } else {
      if k == 0 {
        TwosDivide(x / 2, 0);
      } else {
        TwosDivide(x / 2, k - 1);
        HalveResidue(x / 2, Pow2(k - 1));
      }
    }
  }

  lemma HalveResidue(y: nat, m: nat)
    requires m > 0
    ensures (2 * y) % (2 * m) == 2 * (y % m)
  {
    var q, r := y / m, y % m;
    assert y == m * q + r;
    assert 2 * y == (2 * m) * q + 2 * r;
    DivModUnique(2 * y, 2 * m, q, 2 * r);
  }

  lemma BaseResidue(x: nat, k: nat)
    requires k >= 1
    ensures (x - x % 2) % Pow2(k) == 0 <==> x % Pow2(k) == x % 2
  {
    Pow2Monotone(1, k);
    ModShift(x % 2, x, Pow2(k));
  }

  /** Two PEs of one parity connect when one is a client at a level the other outlives. */
  ghost predicate Splits(a: nat, b: nat)
  {
    a % 2 != b % 2 || TwosIn(a - a % 2) != TwosIn(b - b % 2)
  }

  lemma ClientExponent(me: nat, level: nat)
    requires level > 0
    ensures Reaches(me, level) && !IsServer(me, level) <==> TwosIn(me - me % 2) == Finite(level)
  {
    var x := me - me % 2;
    TwosDivide(x, level);
    TwosDivide(x, level + 1);
    BaseResidue(me, level);
    BaseResidue(me, level + 1);
    ReachesByResidue(me, level);
    ServesByResidue(me, level);
  }

  lemma ServerExponent(me: nat, level: nat)
    requires level > 0
    ensures Reaches(me, level) && IsServer(me, level)
       <==> (TwosIn(me - me % 2) == Infinite || TwosIn(me - me % 2).exponent > level)
  {
    var x := me - me % 2;
    TwosDivide(x, level + 1);
    BaseResidue(me, level + 1);
    ServerResidue(me, level);
  }

  lemma PowerBelow(x: nat, level: nat)
    requires TwosIn(x) == Finite(level)
    ensures Pow2(level) <= x
  {
    TwosDivide(x, level);
    if x < Pow2(level) { SmallResidue(x, Pow2(level)); }
  }

  /** Every PE that has a client level reaches it before the level loop ends. */
  lemma ClientLevelInRange(n: nat, x: nat, level: nat)
    requires x < n && TwosIn(x) == Finite(level)
    ensures level < Levels(n)
  {
    PowerBelow(x, level);
    LevelsExceed(n, level);
  }

  lemma LevelsExceed(n: nat, level: nat)
    requires Pow2(level) < n
    ensures level < Levels(n)
  {
    var top := Levels(n);
    if top <= level { Pow2Monotone(top, level); }
  }

  lemma EvenExponent(x: nat)
    requires x % 2 == 0
    ensures TwosIn(x) == Infinite || TwosIn(x).exponent > 0
  {
    TwosDivide(x, 1);
  }

  /** The lower client level of a same-parity pair makes the connection. */
  lemma LowerConnects(pl: Placement, c: nat, s: nat, level: nat)
    requires c < pl.N() && s < pl.N() && pl.Remote(c, s) && c % 2 == s % 2
    requires TwosIn(c - c % 2) == Finite(level)
    requires TwosIn(s - s % 2) == Infinite || TwosIn(s - s % 2).exponent > level
    ensures ConnectsTo(pl, c, s, level)
  {
    EvenExponent(c - c % 2);
    ClientLevelInRange(pl.N(), c - c % 2, level);
    ClientExponent(c, level);
    ServerExponent(s, level);
    ServerResidue(s, level);
    Pow2Monotone(1, level);
    ClientVisits(pl, c, level, s);
  }

  lemma WiredSplits(pl: Placement, a: nat, b: nat)
    requires a < pl.N() && b < pl.N() && Wired(pl, a, b)
    ensures pl.Remote(a, b) && Splits(a, b)
  {
    var level: nat :| ConnectsTo(pl, a, b, level) || ConnectsTo(pl, b, a, level);
    var c, s := if ConnectsTo(pl, a, b, level) then a else b, if ConnectsTo(pl, a, b, level) then b else a;
    ConnectParity(pl, c, s, level);
    if level > 0 {
      ClientExponent(c, level);
      ServerExponent(s, level);
    }
  }

  lemma SplitsWired(pl: Placement, a: nat, b: nat)
    requires a < pl.N() && b < pl.N() && pl.Remote(a, b) && Splits(a, b)
    ensures Wired(pl, a, b)
  {
    if a % 2 != b % 2 {
      var c, s := if a % 2 == 1 then a else b, if a % 2 == 1 then b else a;
      ClientVisits(pl, c, 0, s);
      assert Levels(pl.N()) > 0 by { assert Pow2(0) == 1; }
      assert ConnectsTo(pl, c, s, 0);
    } else {
      var x, y := TwosIn(a - a % 2), TwosIn(b - b % 2);
      if x.Finite? && (y.Infinite? || x.exponent < y.exponent) {
        LowerConnects(pl, a, b, x.exponent);
      } else {
        LowerConnects(pl, b, a, y.exponent);
      }
    }
  }

  /** Exactly which PEs of different hosts end up connected. */
  lemma WiredExactly(pl: Placement, a: nat, b: nat)
    requires a < pl.N() && b < pl.N()
    ensures Wired(pl, a, b) <==> pl.Remote(a, b) && Splits(a, b)
  {
    if Wired(pl, a, b) { WiredSplits(pl, a, b); }
    if pl.Remote(a, b) && Splits(a, b) { SplitsWired(pl, a, b); }
  }

  /** PE 0 is connected to every PE on another host, whatever the size of the job. */
  lemma RootWired(pl: Placement, a: nat)
    requires a < pl.N() && pl.Remote(0, a)
    ensures Wired(pl, 0, a) && Wired(pl, a, 0)
  {
    WiredExactly(pl, 0, a);
    WiredExactly(pl, a, 0);
    TwosDivide(a - a % 2, 0);
    assert a != 0;
    if a == 1 { assert 0 % 2 != a % 2; }
  }

  /** Every remote pair is connected for every placement exactly when there are at most six PEs. */
  lemma AllToAllExactly(n: nat)
    ensures n <= 6 <==> (forall pl: Placement, a: nat, b: nat ::
                           pl.N() == n && a < n && b < n && pl.Remote(a, b) ==> Wired(pl, a, b))
  {
    if n <= 6 {
      forall pl: Placement, a: nat, b: nat | pl.N() == n && a < n && b < n && pl.Remote(a, b)
        ensures Wired(pl, a, b)
      {
        WiredExactly(pl, a, b);
        SmallJobsSplit(a, b);
      }
    } else {
      var pl := Placement(seq(n, i requires 0 <= i < n => i));
      WiredExactly(pl, 2, 6);
      assert TwosIn(2) == Finite(1) == TwosIn(6) by {
        assert TwosIn(1) == Finite(0) == TwosIn(3);
      }
      assert pl.Remote(2, 6) && !Wired(pl, 2, 6);
    }
  }

  lemma SmallJobsSplit(a: nat, b: nat)
    requires a < 6 && b < 6 && a != b
    ensures Splits(a, b)
  {
    assert TwosIn(0) == Infinite;
    assert TwosIn(1) == Finite(0);
    assert TwosIn(2) == Finite(1);
    assert TwosIn(4) == Finite(2);
  }
}
