/** The "Symmetrize" edit-mode operator (AT_SymmetrizeTool in armature_tools.py).

    Each vertex gets a key: the average of the texture coordinates of the
    loops around it, computed once before anything changes. Every selected
    vertex on the negative side of the mirror plane (x at most the tolerance)
    is then visited in index order: a vertex whose key lies on the seam
    u = 0.5 is snapped onto the plane; otherwise the vertex whose key is
    closest to the mirrored key (1 - u, v) becomes its partner and it takes
    the partner's position mirrored in x; a vertex without a partner is
    counted and left selected. */
module Symmetrize {
  import opened Wrappers
  import opened Geometry

  /** The relative tolerance math.isclose uses by default. */
  const RelTol: real := 0.000000001

  function Abs(a: real): real {
    if a < 0.0 then -a else a
  }

  /** math.isclose(a, b, abs_tol = tol) with the default relative tolerance,
      for a non-negative tol. */
  predicate IsClose(a: real, b: real, tol: real) {
    a == b || Abs(b - a) <= Abs(RelTol * b) || Abs(b - a) <= Abs(RelTol * a) || Abs(b - a) <= tol
  }

  /** `(uv - target).length < tol`, stated on squared lengths. */
  predicate Within(uv: Uv, target: Uv, tol: real) {
    tol > 0.0 && UvDist2(uv, target) < tol * tol
  }

  /** The key a vertex's partner should have: mirrored across u = 0.5. */
  function MirrorUv(uv: Uv): Uv {
    Uv(1.0 - uv.u, uv.v)
  }

  /** A position mirrored across the x = 0 plane. */
  function MirrorX(p: Vec3): Vec3 {
    Vec3(-p.x, p.y, p.z)
  }

  function SumUv(s: seq<Uv>): Uv {
    if s == [] then Uv(0.0, 0.0)
    else
      var t := SumUv(s[..|s| - 1]);
      Uv(t.u + s[|s| - 1].u, t.v + s[|s| - 1].v)
  }

  /** get_uv: the average of the texture coordinates of a vertex's loops. */
  function AverageUv(s: seq<Uv>): Uv
    requires |s| > 0
  {
    Uv(SumUv(s).u / |s| as real, SumUv(s).v / |s| as real)
  }

  /** The sum of n equal coordinates is n times that coordinate. */
  lemma {:induction false} SumOfEqual(s: seq<Uv>, w: Uv)
    requires forall i | 0 <= i < |s| :: s[i] == w
    ensures SumUv(s) == Uv(|s| as real * w.u, |s| as real * w.v)
  {
    if s != [] {
      SumOfEqual(s[..|s| - 1], w);
    }
  }

  /** A vertex whose loops all carry the same coordinate has that coordinate
      as its key. */
  lemma AverageOfEqual(s: seq<Uv>, w: Uv)
    requires |s| > 0
    requires forall i | 0 <= i < |s| :: s[i] == w
    ensures AverageUv(s) == w
  {
    SumOfEqual(s, w);
  }

  /** The sorted list of candidate partners, first element (ClosestSpec
      states what it is). */
  function Closest(uvs: seq<Uv>, self: nat, target: Uv, tol: real, n: nat): (r: Option<nat>)
    requires n <= |uvs|
    ensures r.Some? ==> r.value < n
  {
    if n == 0 then None
    else
      var best := Closest(uvs, self, target, tol, n - 1);
      var q := n - 1;
      if q == self || !Within(uvs[q], target, tol) then best
      else if best.None? then Some(q)
      else if UvDist2(uvs[q], target) < UvDist2(uvs[best.value], target) then Some(q)
      else best
  }

  /** The partner of a vertex: among the vertices q < n other than self whose
      key lies within tol of target, the first (in index order) of those
      whose key is closest to target; none exactly when no vertex qualifies. */
  lemma {:induction false} ClosestSpec(uvs: seq<Uv>, self: nat, target: Uv, tol: real, n: nat)
    requires n <= |uvs|
    ensures var r := Closest(uvs, self, target, tol, n);
      && (r.Some? ==> r.value < n && r.value != self && Within(uvs[r.value], target, tol))
      && (r.Some? ==> forall q | 0 <= q < n && q != self && Within(uvs[q], target, tol) ::
            UvDist2(uvs[r.value], target) <= UvDist2(uvs[q], target))
      && (r.Some? ==> forall q | 0 <= q < r.value && q != self && Within(uvs[q], target, tol) ::
            UvDist2(uvs[r.value], target) < UvDist2(uvs[q], target))
      && (r.None? <==> forall q | 0 <= q < n && q != self :: !Within(uvs[q], target, tol))
  {
    if n > 0 {
      ClosestSpec(uvs, self, target, tol, n - 1);
    }
  }

  /** What happens to one visited vertex. */
  datatype Kind = OnSeam | Matched(partner: nat) | Unmatched

  /** The rule applied to visited vertex v, given every vertex's key. */
  function KindOf(uvs: seq<Uv>, v: nat, tol: real): (k: Kind)
    requires v < |uvs|
    ensures k.Matched? ==> k.partner < |uvs|
  {
    if IsClose(uvs[v].u, 0.5, tol) then OnSeam
    else
      match Closest(uvs, v, MirrorUv(uvs[v]), tol, |uvs|)
      case Some(p) => Matched(p)
      case None => Unmatched
  }

  /** The vertices visited, in index order: selected, with x at most tol. */
  function Visited(co: seq<Vec3>, selected: seq<bool>, tol: real, n: nat): (ps: seq<nat>)
    requires n <= |co| && n <= |selected|
    ensures forall i | 0 <= i < |ps| :: ps[i] < n
    ensures forall i, j | 0 <= i < j < |ps| :: ps[i] < ps[j]
    ensures forall v | 0 <= v < n :: v in ps <==> selected[v] && co[v].x <= tol
  {
    if n == 0 then []
    else
      var ps := Visited(co, selected, tol, n - 1);
      if selected[n - 1] && co[n - 1].x <= tol then ps + [n - 1] else ps
  }

  /** The positions after one visited vertex. The partner's position is read
      as it is at that moment. */
  function Step(co: seq<Vec3>, v: nat, k: Kind): (r: seq<Vec3>)
    requires v < |co| && (k.Matched? ==> k.partner < |co|)
    ensures |r| == |co|
  {
    match k
    case OnSeam => co[v := co[v].(x := 0.0)]
    case Matched(p) => co[v := MirrorX(co[p])]
    case Unmatched => co
  }

  /** The positions after visiting the vertices of ps in order. */
  function Pass(co: seq<Vec3>, uvs: seq<Uv>, ps: seq<nat>, tol: real): (r: seq<Vec3>)
    requires |uvs| == |co|
    requires forall i | 0 <= i < |ps| :: ps[i] < |co|
    ensures |r| == |co|
  {
    if ps == [] then co
    else
      var v := ps[|ps| - 1];
      Step(Pass(co, uvs, ps[..|ps| - 1], tol), v, KindOf(uvs, v, tol))
  }

  /** The counts reported at the end. */
  datatype Tally = Tally(seam: nat, matched: nat, unmatched: nat)

  function Count(uvs: seq<Uv>, ps: seq<nat>, tol: real): (t: Tally)
    requires forall i | 0 <= i < |ps| :: ps[i] < |uvs|
    ensures t.seam + t.matched + t.unmatched == |ps|
  {
    if ps == [] then Tally(0, 0, 0)
    else
      var t := Count(uvs, ps[..|ps| - 1], tol);
      match KindOf(uvs, ps[|ps| - 1], tol)
      case OnSeam => t.(seam := t.seam + 1)
      case Matched(_) => t.(matched := t.matched + 1)
      case Unmatched => t.(unmatched := t.unmatched + 1)
  }

  /** The selection after deselecting everything. */
  function NoneSelected(n: nat): (s: seq<bool>)
    ensures |s| == n && forall v | 0 <= v < n :: !s[v]
  {
    seq(n, _ => false)
  }

  /** The selection at the end: exactly the visited vertices without a partner. */
  function Reselected(uvs: seq<Uv>, ps: seq<nat>, tol: real): (s: seq<bool>)
    requires forall i | 0 <= i < |ps| :: ps[i] < |uvs|
    ensures |s| == |uvs|
  {
    if ps == [] then NoneSelected(|uvs|)
    else
      var v := ps[|ps| - 1];
      var s := Reselected(uvs, ps[..|ps| - 1], tol);
      if KindOf(uvs, v, tol) == Unmatched then s[v := true] else s
  }

  /** Exactly the visited vertices without a partner end up selected. */
  lemma {:induction false} ReselectedSpec(uvs: seq<Uv>, ps: seq<nat>, tol: real)
    requires forall i | 0 <= i < |ps| :: ps[i] < |uvs|
    ensures forall v | 0 <= v < |uvs| ::
      Reselected(uvs, ps, tol)[v] <==> v in ps && KindOf(uvs, v, tol) == Unmatched
  {
    if ps != [] {
      var init := ps[..|ps| - 1];
      ReselectedSpec(uvs, init, tol);
      assert forall v | 0 <= v < |uvs| :: v in ps <==> v in init || v == ps[|ps| - 1];
    }
  }

  /** Extending the visited prefix by one vertex: positions. */
  lemma PassPrefix(co: seq<Vec3>, uvs: seq<Uv>, ps: seq<nat>, tol: real, k: nat)
    requires |uvs| == |co|
    requires forall i | 0 <= i < |ps| :: ps[i] < |co|
    requires k < |ps|
    ensures Pass(co, uvs, ps[..k + 1], tol) == Step(Pass(co, uvs, ps[..k], tol), ps[k], KindOf(uvs, ps[k], tol))
  {
    assert ps[..k + 1][..k] == ps[..k];
  }

  /** Extending the visited prefix by one vertex: counts. */
  lemma CountPrefix(uvs: seq<Uv>, ps: seq<nat>, tol: real, k: nat)
    requires forall i | 0 <= i < |ps| :: ps[i] < |uvs|
    requires k < |ps|
    ensures var kind := KindOf(uvs, ps[k], tol);
      && Count(uvs, ps[..k + 1], tol).matched ==
        Count(uvs, ps[..k], tol).matched + (if kind.Matched? then 1 else 0)
      && Count(uvs, ps[..k + 1], tol).unmatched ==
        Count(uvs, ps[..k], tol).unmatched + (if kind == Unmatched then 1 else 0)
  {
    assert ps[..k + 1][..k] == ps[..k];
  }

  /** Extending the visited prefix by one vertex: selection. */
  lemma ReselectedPrefix(uvs: seq<Uv>, ps: seq<nat>, tol: real, k: nat)
    requires forall i | 0 <= i < |ps| :: ps[i] < |uvs|
    requires k < |ps|
    ensures Reselected(uvs, ps[..k + 1], tol) ==
      if KindOf(uvs, ps[k], tol) == Unmatched then Reselected(uvs, ps[..k], tol)[ps[k] := true]
      else Reselected(uvs, ps[..k], tol)
  {
    assert ps[..k + 1][..k] == ps[..k];
  }

  /** The state the loop of the operator carries: positions, selection and
      the two counters. */
  datatype PassState = PassState(co: seq<Vec3>, selected: seq<bool>, matched: nat, unmatched: nat)

  /** The state after visiting the vertices of ps. */
  function Summary(co: seq<Vec3>, uvs: seq<Uv>, ps: seq<nat>, tol: real): PassState
    requires |uvs| == |co|
    requires forall i | 0 <= i < |ps| :: ps[i] < |co|
  {
    var t := Count(uvs, ps, tol);
    PassState(Pass(co, uvs, ps, tol), Reselected(uvs, ps, tol), t.matched, t.unmatched)
  }

  lemma SummaryEmpty(co: seq<Vec3>, uvs: seq<Uv>, ps: seq<nat>, tol: real)
    requires |uvs| == |co|
    requires forall i | 0 <= i < |ps| :: ps[i] < |co|
    ensures Summary(co, uvs, ps[..0], tol) == PassState(co, NoneSelected(|uvs|), 0, 0)
  {
    assert ps[..0] == [];
  }

  lemma SummaryStep(co: seq<Vec3>, uvs: seq<Uv>, ps: seq<nat>, tol: real, k: nat)
    requires |uvs| == |co|
    requires forall i | 0 <= i < |ps| :: ps[i] < |co|
    requires k < |ps|
    ensures var s := Summary(co, uvs, ps[..k], tol);
      var v := ps[k];
      var kind := KindOf(uvs, v, tol);
      Summary(co, uvs, ps[..k + 1], tol) == PassState(
        Step(s.co, v, kind),
        if kind == Unmatched then s.selected[v := true] else s.selected,
        s.matched + (if kind.Matched? then 1 else 0),
        s.unmatched + (if kind == Unmatched then 1 else 0))
  {
    PassPrefix(co, uvs, ps, tol, k);
    CountPrefix(uvs, ps, tol, k);
    ReselectedPrefix(uvs, ps, tol, k);
  }

  /** A vertex that is never visited keeps its position. */
  lemma {:induction false} PassOutside(co: seq<Vec3>, uvs: seq<Uv>, ps: seq<nat>, tol: real, v: nat)
    requires |uvs| == |co| && v < |co|
    requires forall i | 0 <= i < |ps| :: ps[i] < |co|
    requires v !in ps
    ensures Pass(co, uvs, ps, tol)[v] == co[v]
  {
    if ps != [] {
      assert v !in ps[..|ps| - 1];
      PassOutside(co, uvs, ps[..|ps| - 1], tol, v);
    }
  }

  /** Visits after the k-th leave the k-th visited vertex alone. */
  lemma {:induction false} PassLater(co: seq<Vec3>, uvs: seq<Uv>, ps: seq<nat>, tol: real, k: nat)
    requires |uvs| == |co|
    requires forall i | 0 <= i < |ps| :: ps[i] < |co|
    requires k < |ps| && ps[k] !in ps[k + 1..]
    ensures Pass(co, uvs, ps, tol)[ps[k]] == Pass(co, uvs, ps[..k + 1], tol)[ps[k]]
  {
    if |ps| > k + 1 {
      var init := ps[..|ps| - 1];
      assert init[..k + 1] == ps[..k + 1];
      assert init[k + 1..] == ps[k + 1..|ps| - 1];
      assert ps[|ps| - 1] in ps[k + 1..];
      PassLater(co, uvs, init, tol, k);
    } else {
      assert ps[..k + 1] == ps;
    }
  }

  /** The effect of the visit of ps[k] is what the position of ps[k] ends up
      as: on the seam its x becomes 0 and y, z are kept; with a partner p it
      is p's position at that moment, mirrored; without a partner it is kept. */
  lemma VisitResult(co: seq<Vec3>, uvs: seq<Uv>, ps: seq<nat>, tol: real, k: nat)
    requires |uvs| == |co|
    requires forall i | 0 <= i < |ps| :: ps[i] < |co|
    requires forall i, j | 0 <= i < j < |ps| :: ps[i] != ps[j]
    requires k < |ps|
    ensures var v := ps[k];
      var r := Pass(co, uvs, ps, tol)[v];
      match KindOf(uvs, v, tol)
      case OnSeam => r == Vec3(0.0, co[v].y, co[v].z)
      case Matched(p) => r == MirrorX(Pass(co, uvs, ps[..k], tol)[p])
      case Unmatched => r == co[v]
  {
    var v := ps[k];
    assert v !in ps[k + 1..];
    assert v !in ps[..k];
    PassLater(co, uvs, ps, tol, k);
    assert ps[..k + 1][..k] == ps[..k];
    PassOutside(co, uvs, ps[..k], tol, v);
  }

  /** A matched vertex whose partner has not been visited before it takes
      the partner's original position, mirrored. */
  lemma MatchedTakesMirror(co: seq<Vec3>, uvs: seq<Uv>, ps: seq<nat>, tol: real, k: nat, p: nat)
    requires |uvs| == |co|
    requires forall i | 0 <= i < |ps| :: ps[i] < |co|
    requires forall i, j | 0 <= i < j < |ps| :: ps[i] != ps[j]
    requires k < |ps| && KindOf(uvs, ps[k], tol) == Matched(p) && p !in ps[..k]
    ensures Pass(co, uvs, ps, tol)[ps[k]] == MirrorX(co[p])
  {
    VisitResult(co, uvs, ps, tol, k);
    PassOutside(co, uvs, ps[..k], tol, p);
  }

  /** A visited vertex whose key is within tol of the seam ends up on the
      mirror plane, with y and z unchanged. */
  lemma SeamSnaps(co: seq<Vec3>, uvs: seq<Uv>, ps: seq<nat>, tol: real, k: nat)
    requires |uvs| == |co|
    requires forall i | 0 <= i < |ps| :: ps[i] < |co|
    requires forall i, j | 0 <= i < j < |ps| :: ps[i] != ps[j]
    requires k < |ps| && Abs(uvs[ps[k]].u - 0.5) <= tol
    ensures Pass(co, uvs, ps, tol)[ps[k]] == co[ps[k]].(x := 0.0)
  {
    VisitResult(co, uvs, ps, tol, k);
  }

  /** Two vertices with keys (0.2, 0.5) and (0.8, 0.5): the first is matched
      with the second. */
  lemma MatchExample()
    ensures KindOf([Uv(0.2, 0.5), Uv(0.8, 0.5)], 0, 0.001) == Matched(1)
  {
    var uvs := [Uv(0.2, 0.5), Uv(0.8, 0.5)];
    assert Within(uvs[1], MirrorUv(uvs[0]), 0.001);
  }

  /** The result of the operator: cancelled for want of a texture-coordinate
      layer, stopped by the assertion that every vertex has a loop, stopped by
      math.isclose rejecting a negative tolerance, or done with the counts it
      reports. */
  datatype Outcome = NoUvLayer | LooseVertex | NegativeTolerance | Done(matched: nat, unmatched: nat)

  predicate AllHaveLoops(loopUvs: seq<seq<Uv>>) {
    forall i | 0 <= i < |loopUvs| :: |loopUvs[i]| > 0
  }

  /** Every vertex's key. */
  function Keys(loopUvs: seq<seq<Uv>>): (uvs: seq<Uv>)
    requires AllHaveLoops(loopUvs)
    ensures |uvs| == |loopUvs|
    ensures forall i | 0 <= i < |uvs| :: uvs[i] == AverageUv(loopUvs[i])
  {
    seq(|loopUvs|, i requires 0 <= i < |loopUvs| => AverageUv(loopUvs[i]))
  }

  /** The edit mesh the operator works on: vertex positions and selection,
      which it changes in place, and, per vertex, the coordinates its loops
      carry in the active texture-coordinate layer. */
  class EditMesh {
    var co: seq<Vec3>
    var selected: seq<bool>
    const loopUvs: seq<seq<Uv>>
    const hasUvLayer: bool

    ghost predicate Valid()
      reads this
    {
      |co| == |loopUvs| && |selected| == |loopUvs|
    }

    constructor (co: seq<Vec3>, selected: seq<bool>, loopUvs: seq<seq<Uv>>, hasUvLayer: bool)
      requires |co| == |loopUvs| && |selected| == |loopUvs|
      ensures Valid()
      ensures this.co == co && this.selected == selected
      ensures this.loopUvs == loopUvs && this.hasUvLayer == hasUvLayer
    {
      this.co := co;
      this.selected := selected;
      this.loopUvs := loopUvs;
      this.hasUvLayer := hasUvLayer;
    }

    /** One visited vertex: the loop body of AT_SymmetrizeTool.execute for a
        non-negative tolerance. */
    method Visit(uvs: seq<Uv>, v: nat, tol: real) returns (k: Kind)
      requires Valid() && |uvs| == |co| && v < |co| && tol >= 0.0
      modifies this
      ensures Valid()
      ensures k == KindOf(uvs, v, tol)
      ensures co == Step(old(co), v, k)
      ensures selected == if k == Unmatched then old(selected)[v := true] else old(selected)
    {
      var uv := uvs[v];
      if IsClose(uv.u, 0.5, tol) {
        co := co[v := co[v].(x := 0.0)];
        k := OnSeam;
      } else {
        var partner := Closest(uvs, v, MirrorUv(uv), tol, |uvs|);
        if partner.Some? {
          var p := partner.value;
          co := co[v := MirrorX(co[p])];
          k := Matched(p);
        } else {
          selected := selected[v := true];
          k := Unmatched;
        }
      }
    }

    /** The loop of AT_SymmetrizeTool.execute over the visited vertices ps,
        after everything was deselected. */
    method VisitAll(uvs: seq<Uv>, ps: seq<nat>, tol: real) returns (out: Outcome)
      requires Valid() && |uvs| == |co|
      requires forall i | 0 <= i < |ps| :: ps[i] < |co|
      requires selected == NoneSelected(|uvs|)
      modifies this
      ensures Valid()
      ensures tol < 0.0 && ps != [] ==> out == NegativeTolerance && co == old(co) && selected == old(selected)
      ensures tol >= 0.0 || ps == [] ==>
        var s := Summary(old(co), uvs, ps, tol);
        out == Done(s.matched, s.unmatched) && co == s.co && selected == s.selected
    {
      var matched, unmatched := 0, 0;
      ghost var co0 := co;
      SummaryEmpty(co, uvs, ps, tol);
      for k := 0 to |ps|
        invariant |co| == |uvs| && |selected| == |uvs|
        invariant PassState(co, selected, matched, unmatched) == Summary(co0, uvs, ps[..k], tol)
        invariant tol < 0.0 ==> k == 0
      {
        var v := ps[k];
        if tol < 0.0 {
          out := NegativeTolerance;
          SummaryEmpty(co0, uvs, ps, tol);
          return;
        }
        SummaryStep(co0, uvs, ps, tol, k);
        ghost var next := Summary(co0, uvs, ps[..k + 1], tol);
        var kind := Visit(uvs, v, tol);
        assert co == next.co && selected == next.selected;
        matched := matched + (if kind.Matched? then 1 else 0);
        unmatched := unmatched + (if kind == Unmatched then 1 else 0);
      }
      assert ps[..|ps|] == ps;
      out := Done(matched, unmatched);
    }

    /** AT_SymmetrizeTool.execute. */
    method Symmetrize(tol: real) returns (out: Outcome)
      requires Valid()
      modifies this
      ensures Valid()
      ensures !hasUvLayer || !AllHaveLoops(loopUvs) ==>
        && out == (if !hasUvLayer then NoUvLayer else LooseVertex)
        && co == old(co) && selected == old(selected)
      ensures hasUvLayer && AllHaveLoops(loopUvs) ==>
        var uvs := Keys(loopUvs);
        var ps := Visited(old(co), old(selected), tol, |uvs|);
        if tol < 0.0 && ps != [] then
          && out == NegativeTolerance
          && co == old(co) && selected == NoneSelected(|uvs|)
        else
          && out == Done(Count(uvs, ps, tol).matched, Count(uvs, ps, tol).unmatched)
          && co == Pass(old(co), uvs, ps, tol)
          && selected == Reselected(uvs, ps, tol)
    {
      if !hasUvLayer {
        return NoUvLayer;
      }
      var n := |loopUvs|;
      var ps := Visited(co, selected, tol, n);
      if exists i | 0 <= i < n :: |loopUvs[i]| == 0 {
        return LooseVertex;
      }
      var uvs := Keys(loopUvs);
      selected := NoneSelected(n);
      out := VisitAll(uvs, ps, tol);
    }
  }
}
