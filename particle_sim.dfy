/** The cell-growth particle simulation (`Simulation_State`).

    Particles are points; links are ordered pairs (i, j), i < j, of particle
    indices that attract each other like springs. One `step` puts every
    particle in a fresh uniform grid, lets close particles repel each other
    and link up, lets linked particles attract, lets relaxed particles
    divide, and finally recomputes the half-width of the system.

    Floats are reals. `glm::distance` is the oracle `dist` (any non-negative
    function), and the random number factory is the oracle `RandomFactory`:
    draw number k of `uniform(0, 10)` is `uniform(k)`, draw number k of
    `rand_unit_cube()` is `unitCube(k)`, and both calls advance the one
    draw counter `next`. */
module ParticleSim {
  import opened Vec
  import opened UniformGrid
  import ErrorHandling

  /** A link between particles `.0 < .1`. */
  type Link = (nat, nat)

  datatype RandomFactory = RandomFactory(uniform: nat -> int, unitCube: nat -> Vec3, next: nat)

  /** The force above which a particle is too compressed to divide. */
  const DivisionForceLimit: real := 20.0

  /** The displacement scale of a new particle from its parent. */
  const DivisionOffset: real := 0.001

  // ---------------------------------------------------------------------
  // Sum of positions

  /** The sum of all positions (the system's centre of mass times its size). */
  function Sum(ps: seq<Vec3>): Vec3 {
    if ps == [] then Origin else Add(Sum(ps[..|ps| - 1]), ps[|ps| - 1])
  }

  /** Replacing one position moves the sum by the same amount. */
  lemma {:induction false} SumUpdate(ps: seq<Vec3>, k: nat, w: Vec3)
    requires k < |ps|
    ensures Sum(ps[k := w]) == Add(Sum(ps), Sub(w, ps[k]))
  {
    var qs := ps[k := w];
    var n := |ps| - 1;
    if k == n {
      assert qs[..n] == ps[..n];
    } else {
      assert qs[..n] == ps[..n][k := w];
      SumUpdate(ps[..n], k, w);
    }
  }

  // ---------------------------------------------------------------------
  // Repulsion and linking

  /** The links particle i makes with the particles `near` it: every later
      particle closer than 0.9 rest lengths. */
  ghost function RowOf(ps: seq<Vec3>, near: set<nat>, i: nat, restLength: real, dist: (Vec3, Vec3) -> real): set<Link>
    requires i < |ps|
  {
    set j | j in near && i < j < |ps| && dist(ps[i], ps[j]) < restLength * 0.9 :: (i, j)
  }

  /** The links made by particles 0 .. k-1 with the particles the grid
      reports within one rest length of them. */
  ghost function CloseLinks(ug: UG, ps: seq<Vec3>, k: nat, restLength: real, dist: (Vec3, Vec3) -> real): set<Link>
    reads ug
    requires ug.Valid() && ug.size > 0.0 && k <= |ps|
  {
    if k == 0 then {}
    else CloseLinks(ug, ps, k - 1, restLength, dist) + RowOf(ps, ug.QueryIds(ps[k - 1], restLength), k - 1, restLength, dist)
  }

  /** A pair is linked exactly when its first particle is among the first k,
      the grid reports the second near the first, and they are closer than
      0.9 rest lengths. */
  lemma {:induction false} CloseLinksMeaning(ug: UG, ps: seq<Vec3>, k: nat, restLength: real, dist: (Vec3, Vec3) -> real)
    requires ug.Valid() && ug.size > 0.0 && k <= |ps|
    ensures forall l :: l in CloseLinks(ug, ps, k, restLength, dist) <==>
      && l.0 < k && l.0 < l.1 < |ps|
      && l.1 in ug.QueryIds(ps[l.0], restLength)
      && dist(ps[l.0], ps[l.1]) < restLength * 0.9
  {
    if k > 0 {
      CloseLinksMeaning(ug, ps, k - 1, restLength, dist);
    }
  }

  /** The links made from the first m entries of a query result. */
  ghost function RowPrefix(ps: seq<Vec3>, close: seq<nat>, m: nat, i: nat, restLength: real, dist: (Vec3, Vec3) -> real): set<Link>
    requires i < |ps| && m <= |close|
  {
    set t | 0 <= t < m && i < close[t] < |ps| && dist(ps[i], ps[close[t]]) < restLength * 0.9 :: (i, close[t])
  }

  lemma RowPrefixStep(ps: seq<Vec3>, close: seq<nat>, m: nat, i: nat, restLength: real, dist: (Vec3, Vec3) -> real)
    requires i < |ps| && m < |close|
    ensures var j := close[m];
      RowPrefix(ps, close, m + 1, i, restLength, dist)
        == RowPrefix(ps, close, m, i, restLength, dist)
         + (if i < j < |ps| && dist(ps[i], ps[j]) < restLength * 0.9 then {(i, j)} else {})
  {
  }

  lemma RowPrefixComplete(ps: seq<Vec3>, close: seq<nat>, near: set<nat>, i: nat, restLength: real, dist: (Vec3, Vec3) -> real)
    requires i < |ps|
    requires forall id :: id in close <==> id in near
    ensures RowPrefix(ps, close, |close|, i, restLength, dist) == RowOf(ps, near, i, restLength, dist)
  {
    forall l | l in RowOf(ps, near, i, restLength, dist)
      ensures l in RowPrefix(ps, close, |close|, i, restLength, dist)
    {
      var t :| 0 <= t < |close| && close[t] == l.1;
    }
  }

  lemma UnionAssoc(a: set<Link>, b: set<Link>, c: set<Link>)
    ensures (a + b) + c == a + (b + c)
  {
  }

  /** A grid holding only ids below n reports only ids below n. */
  lemma QueryIdsBelow(ug: UG, pos: Vec3, radius: real, n: nat)
    requires ug.Valid() && ug.size > 0.0 && IdsBelow(ug.Buckets(), n)
    ensures forall id :: id in ug.QueryIds(pos, radius) ==> id < n
  {
    BoxIdsBelow(ug.Buckets(), ug.binCount, BinBox(ug.size, ug.binCount, pos, radius), n);
  }

  /** The repulsion of particle i by the particles `close` to it (the body
      of the repulsion loop): each j > i among them links to i when closer
      than 0.9 rest lengths, and i and j are pushed apart by equal and
      opposite amounts computed from the old positions. */
  method RepelFrom(ps: seq<Vec3>, i: nat, close: seq<nat>, moved: seq<Vec3>, forces: seq<real>, linked: set<Link>,
                   restLength: real, repellFactor: real, cellMass: real, dt: real, dist: (Vec3, Vec3) -> real)
    returns (moved': seq<Vec3>, forces': seq<real>, linked': set<Link>)
    requires i < |ps| && |moved| == |ps| && |forces| == |ps|
    requires forall t :: 0 <= t < |close| ==> close[t] < |ps|
    requires forall a, b :: dist(a, b) >= 0.0
    ensures |moved'| == |ps| && |forces'| == |ps|
    ensures Sum(moved') == Sum(moved)
    ensures forall k :: 0 <= k < |ps| ==> forces'[k] >= forces[k]
    ensures linked' == linked + RowPrefix(ps, close, |close|, i, restLength, dist)
  {
    moved', forces', linked' := moved, forces, linked;
    var newPos0 := moved[i];
    var accForce := 0.0;
    var m := 0;
    while m < |close|
      invariant 0 <= m <= |close|
      invariant |moved'| == |ps| && |forces'| == |ps|
      invariant Add(Sum(moved'), Sub(newPos0, moved'[i])) == Sum(moved)
      invariant accForce >= 0.0
      invariant forall k :: 0 <= k < |ps| ==> forces'[k] >= forces[k]
      invariant linked' == linked + RowPrefix(ps, close, m, i, restLength, dist)
    {
      RowPrefixStep(ps, close, m, i, restLength, dist);
      var j := close[m];
      if j <= i {
        m := m + 1;
        continue;
      }
      var d := dist(ps[i], ps[j]);
      if d < restLength * 0.9 {
        linked' := linked' + {(i, j)};
      }
      var force := repellFactor * cellMass / (d * d + 1.0);
      accForce := accForce + Abs(force);
      var vforce := Scale(Sub(ps[i], ps[j]), force * dt / (d + 1.0));
      newPos0 := Add(newPos0, vforce);
      SumUpdate(moved', j, Sub(moved'[j], vforce));
      moved' := moved'[j := Sub(moved'[j], vforce)];
      forces' := forces'[j := forces'[j] + Abs(force)];
      m := m + 1;
    }
    SumUpdate(moved', i, newPos0);
    moved' := moved'[i := newPos0];
    forces' := forces'[i := forces'[i] + accForce];
  }

  /** The repulsion pass of `step`: every particle i queries the grid within
      one rest length; each reported j > i links to i when closer than 0.9
      rest lengths, and the two are pushed apart by equal and opposite
      amounts. Returns the moved positions, the accumulated absolute forces
      and the enlarged link set. */
  method Repel(ug: UG, ps: seq<Vec3>, links: set<Link>, restLength: real, repellFactor: real,
               cellMass: real, dt: real, dist: (Vec3, Vec3) -> real)
    returns (moved: seq<Vec3>, forces: seq<real>, linked: set<Link>)
    requires ug.Valid() && ug.size > 0.0
    requires IdsBelow(ug.Buckets(), |ps|)
    requires forall a, b :: dist(a, b) >= 0.0
    ensures |moved| == |ps| && |forces| == |ps|
    ensures Sum(moved) == Sum(ps)
    ensures forall k :: 0 <= k < |forces| ==> forces[k] >= 0.0
    ensures linked == links + CloseLinks(ug, ps, |ps|, restLength, dist)
  {
    moved := ps;
    forces := seq(|ps|, _ => 0.0);
    linked := links;
    var i := 0;
    while i < |ps|
      invariant 0 <= i <= |ps|
      invariant |moved| == |ps| && |forces| == |ps|
      invariant Sum(moved) == Sum(ps)
      invariant forall k :: 0 <= k < |forces| ==> forces[k] >= 0.0
      invariant linked == links + CloseLinks(ug, ps, i, restLength, dist)
    {
      var close := ug.Traverse(ps[i], restLength);
      QueryIdsBelow(ug, ps[i], restLength, |ps|);
      assert forall t :: 0 <= t < |close| ==> close[t] in ug.QueryIds(ps[i], restLength);
      ghost var done := CloseLinks(ug, ps, i, restLength, dist);
      ghost var row := RowOf(ps, ug.QueryIds(ps[i], restLength), i, restLength, dist);
      moved, forces, linked := RepelFrom(ps, i, close, moved, forces, linked, restLength, repellFactor, cellMass, dt, dist);
      RowPrefixComplete(ps, close, ug.QueryIds(ps[i], restLength), i, restLength, dist);
      assert linked == (links + done) + row;
      UnionAssoc(links, done, row);
      assert CloseLinks(ug, ps, i + 1, restLength, dist) == done + row;
      i := i + 1;
    }
  }

  // ---------------------------------------------------------------------
  // Attraction

  /** Particle k is an end of no link. */
  predicate Unlinked(links: set<Link>, k: nat) {
    forall l :: l in links ==> l.0 != k && l.1 != k
  }

  /** The spring along one link (the body of the attraction loop): its two
      ends move by equal and opposite amounts computed from the old
      positions, and both accumulate the absolute spring force. */
  method Pull(ps: seq<Vec3>, moved: seq<Vec3>, forces: seq<real>, link: Link, restLength: real,
              springFactor: real, cellMass: real, dt: real, dist: (Vec3, Vec3) -> real)
    returns (moved': seq<Vec3>, forces': seq<real>)
    requires |moved| == |ps| && |forces| == |ps| && link.1 < |ps|
    requires link.0 < link.1
    ensures |moved'| == |ps| && |forces'| == |ps|
    ensures Sum(moved') == Sum(moved)
    ensures forall k :: 0 <= k < |ps| ==> forces'[k] >= forces[k]
    ensures forall k :: 0 <= k < |ps| && k != link.0 && k != link.1 ==> moved'[k] == moved[k] && forces'[k] == forces[k]
  {
    ErrorHandling.AssertPanic(link.0 < link.1);
    var i, j := link.0, link.1;
    var d := restLength - dist(ps[i], ps[j]);
    var force := springFactor * cellMass * d;
    var vforce := Scale(Sub(ps[i], ps[j]), force * dt);
    SumUpdate(moved, i, Add(moved[i], vforce));
    moved' := moved[i := Add(moved[i], vforce)];
    SumUpdate(moved', j, Sub(moved'[j], vforce));
    moved' := moved'[j := Sub(moved'[j], vforce)];
    forces' := forces[i := forces[i] + Abs(force)];
    forces' := forces'[j := forces'[j] + Abs(force)];
  }

  /** The attraction pass of `step`: every link pulls its two ends towards
      each other by equal and opposite amounts (pushes them apart when they
      are closer than the rest length), computed from the old positions. */
  method Attract(ps: seq<Vec3>, moved: seq<Vec3>, forces: seq<real>, links: set<Link>, restLength: real,
                 springFactor: real, cellMass: real, dt: real, dist: (Vec3, Vec3) -> real)
    returns (moved': seq<Vec3>, forces': seq<real>)
    requires |moved| == |ps| && |forces| == |ps|
    requires forall l :: l in links ==> l.0 < l.1 < |ps|
    ensures |moved'| == |ps| && |forces'| == |ps|
    ensures Sum(moved') == Sum(moved)
    ensures forall k :: 0 <= k < |ps| ==> forces'[k] >= forces[k]
    ensures forall k :: 0 <= k < |ps| && Unlinked(links, k) ==> moved'[k] == moved[k] && forces'[k] == forces[k]
  {
    moved', forces' := moved, forces;
    var rest := links;
    while rest != {}
      invariant rest <= links
      invariant |moved'| == |ps| && |forces'| == |ps|
      invariant Sum(moved') == Sum(moved)
      invariant forall k :: 0 <= k < |ps| ==> forces'[k] >= forces[k]
      invariant forall k :: 0 <= k < |ps| && Unlinked(links, k) ==> moved'[k] == moved[k] && forces'[k] == forces[k]
      decreases rest
    {
      var link :| link in rest;
      moved', forces' := Pull(ps, moved', forces', link, restLength, springFactor, cellMass, dt, dist);
      rest := rest - {link};
    }
  }

  // ---------------------------------------------------------------------
  // Division

  /** The outcome of the division pass: the indices of the particles that
      divided, the new particles, and the random factory afterwards. */
  datatype Division = Division(parents: seq<nat>, born: seq<Vec3>, next: nat)

  /** Division of particles i.. in order, drawing from `rf` from draw
      `rf.next` on: each particle draws `uniform(0, 10)`; when the draw is 0
      and the force consulted for it is below the limit, it draws a
      unit-cube offset and a new particle appears that close to it. */
  function Births(ps: seq<Vec3>, pressure: seq<real>, rf: RandomFactory, i: nat): Division
    requires i <= |ps| == |pressure|
    decreases |ps| - i
  {
    if i == |ps| then Division([], [], rf.next)
    else if rf.uniform(rf.next) == 0 && pressure[i] < DivisionForceLimit then
      var offset := Scale(rf.unitCube(rf.next + 1), DivisionOffset);
      var rest := Births(ps, pressure, rf.(next := rf.next + 2), i + 1);
      Division([i] + rest.parents, [Add(ps[i], offset)] + rest.born, rest.next)
    else
      Births(ps, pressure, rf.(next := rf.next + 1), i + 1)
  }

  /** Division makes at most one particle per parent, in parent order, and
      only particles whose consulted force is below the limit divide. */
  lemma {:induction false} BirthsParents(ps: seq<Vec3>, pressure: seq<real>, rf: RandomFactory, i: nat)
    requires i <= |ps| == |pressure|
    decreases |ps| - i
    ensures var d := Births(ps, pressure, rf, i);
      && |d.parents| == |d.born| <= |ps| - i
      && (forall k :: 0 <= k < |d.parents| ==> i <= d.parents[k] < |ps| && pressure[d.parents[k]] < DivisionForceLimit)
      && (forall k1, k2 :: 0 <= k1 < k2 < |d.parents| ==> d.parents[k1] < d.parents[k2])
  {
    if i < |ps| {
      if rf.uniform(rf.next) == 0 && pressure[i] < DivisionForceLimit {
        BirthsParents(ps, pressure, rf.(next := rf.next + 2), i + 1);
      } else {
        BirthsParents(ps, pressure, rf.(next := rf.next + 1), i + 1);
      }
    }
  }

  /** Each new particle lies within the offset scale of its parent on every
      axis. */
  predicate BornNearParent(d: Division, ps: seq<Vec3>) {
    && |d.parents| == |d.born|
    && forall k :: 0 <= k < |d.born| ==>
         d.parents[k] < |ps| && MaxAbs(Sub(d.born[k], ps[d.parents[k]])) <= DivisionOffset
  }

  lemma NearCons(d: Division, rest: Division, ps: seq<Vec3>, i: nat)
    requires i < |ps| && |d.born| == |rest.born| + 1 && |d.parents| == |rest.parents| + 1
    requires d.born[1..] == rest.born && d.parents[1..] == rest.parents && d.parents[0] == i
    requires MaxAbs(Sub(d.born[0], ps[i])) <= DivisionOffset
    requires BornNearParent(rest, ps)
    ensures BornNearParent(d, ps)
  {
    forall k | 0 < k < |d.born|
      ensures d.parents[k] < |ps| && MaxAbs(Sub(d.born[k], ps[d.parents[k]])) <= DivisionOffset
    {
      assert d.born[k] == rest.born[k - 1] && d.parents[k] == rest.parents[k - 1];
    }
  }

  /** New particles lie near their parents when the unit-cube draws lie in
      the unit cube. */
  lemma {:induction false} BirthsNear(ps: seq<Vec3>, pressure: seq<real>, rf: RandomFactory, i: nat)
    requires i <= |ps| == |pressure|
    requires forall n :: MaxAbs(rf.unitCube(n)) <= 1.0
    decreases |ps| - i
    ensures BornNearParent(Births(ps, pressure, rf, i), ps)
  {
    var d := Births(ps, pressure, rf, i);
    if i < |ps| {
      if rf.uniform(rf.next) == 0 && pressure[i] < DivisionForceLimit {
        var next := rf.(next := rf.next + 2);
        var rest := Births(ps, pressure, next, i + 1);
        BirthsNear(ps, pressure, next, i + 1);
        OffsetWithin(ps[i], rf.unitCube(rf.next + 1));
        NearCons(d, rest, ps, i);
      } else {
        BirthsNear(ps, pressure, rf.(next := rf.next + 1), i + 1);
      }
    }
  }

  /** The factory advances by one draw per particle plus one per division. */
  lemma {:induction false} BirthsDraws(ps: seq<Vec3>, pressure: seq<real>, rf: RandomFactory, i: nat)
    requires i <= |ps| == |pressure|
    decreases |ps| - i
    ensures Births(ps, pressure, rf, i).next == rf.next + (|ps| - i) + |Births(ps, pressure, rf, i).born|
  {
    if i < |ps| {
      if rf.uniform(rf.next) == 0 && pressure[i] < DivisionForceLimit {
        BirthsDraws(ps, pressure, rf.(next := rf.next + 2), i + 1);
      } else {
        BirthsDraws(ps, pressure, rf.(next := rf.next + 1), i + 1);
      }
    }
  }

  /** A unit-cube offset scaled by the offset scale stays within it. */
  lemma OffsetWithin(p: Vec3, c: Vec3)
    ensures MaxAbs(c) <= 1.0 ==> MaxAbs(Sub(Add(p, Scale(c, DivisionOffset)), p)) <= DivisionOffset
  {
    var q := Sub(Add(p, Scale(c, DivisionOffset)), p);
    assert q == Scale(c, DivisionOffset);
  }

  /** The force of particle 0 for every particle: what the division gate of
      `step` consults, because its loop never advances its index. */
  function FirstForceEverywhere(forces: seq<real>): (r: seq<real>)
    ensures |r| == |forces|
    ensures forall k :: 0 <= k < |r| ==> r[k] == forces[0]
  {
    seq(|forces|, _ requires |forces| > 0 => forces[0])
  }

  /** The division pass as the source writes it: the gate reads the force of
      particle 0 for every particle. */
  method DivideAsWritten(ps: seq<Vec3>, forces: seq<real>, rf: RandomFactory) returns (born: seq<Vec3>, rf': RandomFactory)
    requires |forces| == |ps|
    ensures born == Births(ps, FirstForceEverywhere(forces), rf, 0).born
    ensures rf' == rf.(next := Births(ps, FirstForceEverywhere(forces), rf, 0).next)
  {
    ghost var pressure := FirstForceEverywhere(forces);
    born, rf' := [], rf;
    var i := 0;
    while i < |ps|
      invariant 0 <= i <= |ps|
      invariant rf' == rf.(next := rf'.next)
      invariant born + Births(ps, pressure, rf', i).born == Births(ps, pressure, rf, 0).born
      invariant Births(ps, pressure, rf', i).next == Births(ps, pressure, rf, 0).next
    {
      var draw := rf'.uniform(rf'.next);
      rf' := rf'.(next := rf'.next + 1);
      // the index of the force table is never advanced
      if draw == 0 && forces[0] < DivisionForceLimit {
        var c := rf'.unitCube(rf'.next);
        rf' := rf'.(next := rf'.next + 1);
        born := born + [Add(ps[i], Scale(c, DivisionOffset))];
      }
      i := i + 1;
    }
  }

  /** The division pass with each particle's own force as the gate. */
  method Divide(ps: seq<Vec3>, forces: seq<real>, rf: RandomFactory) returns (born: seq<Vec3>, rf': RandomFactory)
    requires |forces| == |ps|
    ensures born == Births(ps, forces, rf, 0).born
    ensures rf' == rf.(next := Births(ps, forces, rf, 0).next)
  {
    born, rf' := [], rf;
    var i := 0;
    while i < |ps|
      invariant 0 <= i <= |ps|
      invariant rf' == rf.(next := rf'.next)
      invariant born + Births(ps, forces, rf', i).born == Births(ps, forces, rf, 0).born
      invariant Births(ps, forces, rf', i).next == Births(ps, forces, rf, 0).next
    {
      var draw := rf'.uniform(rf'.next);
      rf' := rf'.(next := rf'.next + 1);
      if draw == 0 && forces[i] < DivisionForceLimit {
        var c := rf'.unitCube(rf'.next);
        rf' := rf'.(next := rf'.next + 1);
        born := born + [Add(ps[i], Scale(c, DivisionOffset))];
      }
      i := i + 1;
    }
  }

  /** Two particles, the second far too compressed to divide, and a factory
      whose every draw is 0: as written both divide, with the gate corrected
      only the first does. */
  lemma DivisionGateCounterexample()
    ensures var ps := [Origin, Vec3(1.0, 0.0, 0.0)];
      var forces := [0.0, 100.0];
      var rf := RandomFactory(_ => 0, _ => Origin, 0);
      && |Births(ps, FirstForceEverywhere(forces), rf, 0).born| == 2
      && Births(ps, forces, rf, 0).parents == [0]
  {
    var ps := [Origin, Vec3(1.0, 0.0, 0.0)];
    var forces := [0.0, 100.0];
    var rf := RandomFactory(_ => 0, _ => Origin, 0);
    var first := FirstForceEverywhere(forces);
    assert first == [0.0, 0.0];
    assert Births(ps, first, rf.(next := 4), 2).born == [];
    assert |Births(ps, first, rf.(next := 2), 1).born| == 1;
    assert Births(ps, forces, rf.(next := 3), 2).parents == [];
    assert Births(ps, forces, rf.(next := 2), 1).parents == [];
  }

  // ---------------------------------------------------------------------
  // System size

  /** The closing loop of `step`: the largest absolute coordinate of any
      particle, plus one rest length. */
  method SystemSize(ps: seq<Vec3>, restLength: real) returns (size: real)
    ensures forall k :: 0 <= k < |ps| ==> MaxAbs(ps[k]) + restLength <= size
    ensures |ps| == 0 ==> size == restLength
    ensures |ps| > 0 ==> exists k :: 0 <= k < |ps| && size == MaxAbs(ps[k]) + restLength
  {
    size := 0.0;
    ghost var widest := 0;
    var i := 0;
    while i < |ps|
      invariant 0 <= i <= |ps|
      invariant forall k :: 0 <= k < i ==> MaxAbs(ps[k]) <= size
      invariant i == 0 ==> size == 0.0
      invariant i > 0 ==> widest < i && size == MaxAbs(ps[widest])
    {
      if i == 0 || size < MaxAbs(ps[i]) {
        widest := i;
      }
      size := Max(size, MaxAbs(ps[i]));
      i := i + 1;
    }
    size := size + restLength;
  }

  /** Every new particle lies within the offset scale of some old particle
      whenever the factory's unit-cube draws lie in the unit cube. */
  ghost predicate NearParents(born: seq<Vec3>, ps: seq<Vec3>, rf: RandomFactory) {
    (forall n :: MaxAbs(rf.unitCube(n)) <= 1.0) ==>
      forall k :: 0 <= k < |born| ==>
        exists p :: 0 <= p < |ps| && MaxAbs(Sub(born[k], ps[p])) <= DivisionOffset
  }

  lemma BornNearParents(ps: seq<Vec3>, forces: seq<real>, rf: RandomFactory)
    requires |forces| == |ps|
    ensures NearParents(Births(ps, forces, rf, 0).born, ps, rf)
  {
    var d := Births(ps, forces, rf, 0);
    if forall n :: MaxAbs(rf.unitCube(n)) <= 1.0 {
      BirthsNear(ps, forces, rf, 0);
      assert BornNearParent(d, ps);
      forall k | 0 <= k < |d.born|
        ensures exists p :: 0 <= p < |ps| && MaxAbs(Sub(d.born[k], ps[p])) <= DivisionOffset
      {
        var p := d.parents[k];
        assert MaxAbs(Sub(d.born[k], ps[p])) <= DivisionOffset;
      }
    }
  }

  /** Every link the repulsion pass adds joins two distinct particles closer
      than 0.9 rest lengths. */
  lemma NewLinksClose(ug: UG, ps: seq<Vec3>, restLength: real, dist: (Vec3, Vec3) -> real)
    requires ug.Valid() && ug.size > 0.0
    ensures forall l :: l in CloseLinks(ug, ps, |ps|, restLength, dist) ==>
      l.0 < l.1 < |ps| && dist(ps[l.0], ps[l.1]) < restLength * 0.9
  {
    CloseLinksMeaning(ug, ps, |ps|, restLength, dist);
  }

  /** At most one new particle per particle; one draw per particle plus one
      per new particle. */
  lemma BirthsCount(ps: seq<Vec3>, forces: seq<real>, rf: RandomFactory)
    requires |forces| == |ps|
    ensures |Births(ps, forces, rf, 0).born| <= |ps|
    ensures Births(ps, forces, rf, 0).next == rf.next + |ps| + |Births(ps, forces, rf, 0).born|
  {
    BirthsParents(ps, forces, rf, 0);
    BirthsDraws(ps, forces, rf, 0);
  }

  /** `u32(2 * system_size / rest_length)`: the bins per axis of a step's
      grid (truncation is the floor for a positive quotient). */
  function GridBins(size: real, restLength: real): (m: nat)
    requires size > 0.0 && restLength > 0.0
    ensures restLength <= size ==> m >= 2
  {
    var q := (2.0 * size) / restLength;
    if restLength <= size then
      QuotientMonotone(2.0 * restLength, 2.0 * size, restLength);
      assert (2.0 * restLength) / restLength == 2.0;
      q.Floor
    else
      q.Floor
  }

  /** `n` empty buckets. */
  ghost function EmptyBuckets(n: nat): (r: seq<seq<nat>>)
    ensures |r| == n && forall k :: 0 <= k < n ==> r[k] == []
  {
    if n == 0 then [] else EmptyBuckets(n - 1) + [[]]
  }

  /** The buckets after particles 0 .. k-1 have been put with radius 0 under
      their indices into an empty grid of half-width `size` and `m` bins per
      axis. */
  ghost function GridOf(ps: seq<Vec3>, size: real, m: nat, k: nat): (b: seq<seq<nat>>)
    requires size > 0.0 && k <= |ps|
    ensures |b| == Slots(m)
  {
    if k == 0 then EmptyBuckets(Slots(m))
    else Inserted(GridOf(ps, size, m, k - 1), m, BinBox(size, m, ps[k - 1], 0.0), k - 1)
  }

  /** The grid of the first k particles holds only their indices. */
  lemma {:induction false} GridOfIdsBelow(ps: seq<Vec3>, size: real, m: nat, k: nat)
    requires size > 0.0 && k <= |ps|
    ensures IdsBelow(GridOf(ps, size, m, k), k)
  {
    if k > 0 {
      GridOfIdsBelow(ps, size, m, k - 1);
      InsertedIdsBelow(GridOf(ps, size, m, k - 1), m, BinBox(size, m, ps[k - 1], 0.0), k - 1);
    }
  }

  /** The grid of the first k particles holds each of them that lies
      strictly inside it: a query with any nonnegative radius around the
      particle's own position finds its index. */
  lemma {:induction false} GridOfHolds(ps: seq<Vec3>, size: real, m: nat, k: nat, i: nat, radius: real)
    requires size > 0.0 && m > 0 && i < k <= |ps| && radius >= 0.0
    requires -size <= ps[i].x < size && -size <= ps[i].y < size && -size <= ps[i].z < size
    ensures i in BoxIds(GridOf(ps, size, m, k), m, BinBox(size, m, ps[i], radius))
  {
    if k == i + 1 {
      PutThenTraverse(GridOf(ps, size, m, i), size, m, ps[i], radius, i);
    } else {
      GridOfHolds(ps, size, m, k - 1, i, radius);
      InsertedKeepsIds(GridOf(ps, size, m, k - 1), m, BinBox(size, m, ps[k - 1], 0.0), k - 1,
                       BinBox(size, m, ps[i], radius));
    }
  }

  /** The particles the step's grid reports within one rest length of
      particle i. */
  ghost function Neighbours(ps: seq<Vec3>, size: real, restLength: real, i: nat): set<nat>
    requires size > 0.0 && restLength > 0.0 && i < |ps|
  {
    var m := GridBins(size, restLength);
    if !WithinBound(size, ps[i], restLength) then {}
    else BoxIds(GridOf(ps, size, m, |ps|), m, BinBox(size, m, ps[i], restLength))
  }

  /** The links the repulsion pass of a step adds: every pair `i < j` where
      the grid reports j near i and the two are closer than 0.9 rest
      lengths. */
  ghost function ClosePairs(ps: seq<Vec3>, size: real, restLength: real, dist: (Vec3, Vec3) -> real): set<Link>
    requires size > 0.0 && restLength > 0.0
  {
    set i: nat, j: nat | i < j < |ps| && j in Neighbours(ps, size, restLength, i) && dist(ps[i], ps[j]) < restLength * 0.9
      :: (i, j)
  }

  /** The grid of one step: every particle put with radius 0 under its
      index, in a grid of half-width `size` and `2 size / restLength` bins per
      axis. */
  method BuildGrid(ps: seq<Vec3>, size: real, restLength: real) returns (ug: UG)
    requires size > 0.0 && restLength > 0.0
    requires forall k :: 0 <= k < |ps| ==> MaxAbs(ps[k]) <= size
    ensures fresh(ug) && ug.Valid() && ug.size == size
    ensures ug.binCount == GridBins(size, restLength)
    ensures ug.Buckets() == GridOf(ps, size, ug.binCount, |ps|)
  {
    var m := GridBins(size, restLength);
    ug := new UG(size, m);
    assert ug.Buckets() == EmptyBuckets(Slots(m));
    var i := 0;
    while i < |ps|
      invariant 0 <= i <= |ps|
      invariant fresh(ug) && ug.Valid() && ug.size == size && ug.binCount == m
      invariant ug.Buckets() == GridOf(ps, size, m, i)
    {
      ug.Put(ps[i], 0.0, i);
      i := i + 1;
    }
  }

  /** On the grid `BuildGrid` makes, the links the repulsion pass collects
      are exactly the step's close pairs. */
  lemma GridLinks(ug: UG, ps: seq<Vec3>, size: real, restLength: real, dist: (Vec3, Vec3) -> real)
    requires size > 0.0 && restLength > 0.0
    requires ug.Valid() && ug.size == size && ug.binCount == GridBins(size, restLength)
    requires ug.Buckets() == GridOf(ps, size, ug.binCount, |ps|)
    ensures CloseLinks(ug, ps, |ps|, restLength, dist) == ClosePairs(ps, size, restLength, dist)
  {
    CloseLinksMeaning(ug, ps, |ps|, restLength, dist);
    forall i | 0 <= i < |ps|
      ensures ug.QueryIds(ps[i], restLength) == Neighbours(ps, size, restLength, i)
    {
    }
  }

  /** Every particle strictly inside the step's grid is its own neighbour. */
  lemma OwnNeighbour(ps: seq<Vec3>, size: real, restLength: real, i: nat)
    requires 0.0 < restLength <= size && i < |ps|
    requires -size <= ps[i].x < size && -size <= ps[i].y < size && -size <= ps[i].z < size
    ensures i in Neighbours(ps, size, restLength, i)
  {
    var m := GridBins(size, restLength);
    GridOfHolds(ps, size, m, |ps|, i, restLength);
  }

  // ---------------------------------------------------------------------
  // The simulation state

  class SimulationState {
    const restLength: real
    const springFactor: real
    const repellFactor: real
    const planarFactor: real
    const bulgeFactor: real
    const cellRadius: real
    const cellMass: real
    const domainRadius: real
    var particles: seq<Vec3>
    var links: set<Link>
    var systemSize: real
    var rf: RandomFactory

    /** Links join existing particles in increasing order, and the system
        half-width bounds every particle, so the grid of the next step
        accepts them all. */
    ghost predicate Valid()
      reads this
    {
      && restLength > 0.0
      && systemSize > 0.0
      && (forall l :: l in links ==> l.0 < l.1 < |particles|)
      && (forall k :: 0 <= k < |particles| ==> MaxAbs(particles[k]) <= systemSize)
    }

    /** The aggregate initialisation: parameters set, no particles yet. */
    constructor (restLength: real, springFactor: real, repellFactor: real, planarFactor: real,
                 bulgeFactor: real, cellRadius: real, cellMass: real, domainRadius: real, rf: RandomFactory)
      ensures this.restLength == restLength && this.springFactor == springFactor
      ensures this.repellFactor == repellFactor && this.planarFactor == planarFactor
      ensures this.bulgeFactor == bulgeFactor && this.cellRadius == cellRadius
      ensures this.cellMass == cellMass && this.domainRadius == domainRadius
      ensures particles == [] && links == {} && systemSize == 0.0 && this.rf == rf
    {
      this.restLength := restLength;
      this.springFactor := springFactor;
      this.repellFactor := repellFactor;
      this.planarFactor := planarFactor;
      this.bulgeFactor := bulgeFactor;
      this.cellRadius := cellRadius;
      this.cellMass := cellMass;
      this.domainRadius := domainRadius;
      particles := [];
      links := {};
      systemSize := 0.0;
      this.rf := rf;
    }

    /** `init()`: two particles one cell radius below and above the origin,
        linked, and a system half-width of one cell radius. */
    method Init()
      modifies this
      ensures particles == old(particles) + [Vec3(0.0, 0.0, -cellRadius), Vec3(0.0, 0.0, cellRadius)]
      ensures links == old(links) + {(0, 1)}
      ensures systemSize == cellRadius && rf == old(rf)
      ensures old(particles) == [] && old(links) == {} && cellRadius > 0.0 && restLength > 0.0 ==> Valid()
    {
      links := links + {(0, 1)};
      particles := particles + [Vec3(0.0, 0.0, -cellRadius)];
      particles := particles + [Vec3(0.0, 0.0, cellRadius)];
      systemSize := cellRadius;
    }

    /** `step(dt)`. */
    method Step(dt: real, dist: (Vec3, Vec3) -> real)
      requires Valid()
      requires forall a, b :: dist(a, b) >= 0.0
      modifies this
      ensures Valid()
      ensures old(links) <= links
      ensures links == old(links) + ClosePairs(old(particles), old(systemSize), restLength, dist)
      ensures forall l :: l in links && l !in old(links) ==>
        l.0 < l.1 < |old(particles)| && dist(old(particles)[l.0], old(particles)[l.1]) < restLength * 0.9
      ensures |old(particles)| <= |particles| <= 2 * |old(particles)|
      ensures Sum(particles[..|old(particles)|]) == Sum(old(particles))
      ensures NearParents(particles[|old(particles)|..], old(particles), old(rf))
      ensures rf.next == old(rf.next) + |particles|
      ensures forall k :: 0 <= k < |particles| ==> MaxAbs(particles[k]) + restLength <= systemSize
      ensures |particles| > 0 ==> exists k :: 0 <= k < |particles| && systemSize == MaxAbs(particles[k]) + restLength
    {
      var ps, links0, size0, rf0 := particles, links, systemSize, rf;
      var ug := BuildGrid(ps, size0, restLength);
      GridOfIdsBelow(ps, size0, ug.binCount, |ps|);
      var moved, forces, linked := Repel(ug, ps, links0, restLength, repellFactor, cellMass, dt, dist);
      NewLinksClose(ug, ps, restLength, dist);
      GridLinks(ug, ps, size0, restLength, dist);
      moved, forces := Attract(ps, moved, forces, linked, restLength, springFactor, cellMass, dt, dist);
      var born, rf1 := Divide(ps, forces, rf0);
      BirthsCount(ps, forces, rf0);
      particles := moved + born;
      links := linked;
      rf := rf1;
      assert particles[..|ps|] == moved;
      assert particles[|ps|..] == born;
      BornNearParents(ps, forces, rf0);
      var size := SystemSize(particles, restLength);
      systemSize := size;
    }
  }
}
