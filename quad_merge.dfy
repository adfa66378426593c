/** The "Tris to Quads" edit-mode operator (AT_TrisToQuads in armature_tools.py).

    Starting from the active edge, the operator walks the mesh with a LIFO work
    list and, face by face, decides which edge to dissolve (merging two
    triangles into a quad), which edge to walk to next and which edge to leave
    selected as the boundary of the new quads. The mesh topology is not touched
    while it walks: the edges are dissolved and selected by the host only once
    the walk is over, so the model is a computation over a fixed mesh that
    returns the three edge sets and the edge to make active next. */
module QuadMerge {
  import opened Wrappers
  import opened Seqs

  type VertId = nat
  type EdgeId = nat
  type FaceId = nat

  /** An edge of the edit mesh: its two vertices, the faces around it in the
      host's order (BMEdge.link_faces), and whether the user had it selected
      when the operator was invoked. */
  datatype Edge = Edge(v0: VertId, v1: VertId, linkFaces: seq<FaceId>, selected: bool)

  /** A face: its vertices and its edges, in the host's order. */
  datatype Face = Face(verts: seq<VertId>, edges: seq<EdgeId>)

  /** The edit mesh: vertEdges[v] lists the edges around vertex v
      (BMVert.link_edges); active is the active element of the selection
      history, when it is an edge. */
  datatype Mesh = Mesh(vertEdges: seq<seq<EdgeId>>, edges: seq<Edge>, faces: seq<Face>, active: Option<EdgeId>)

  /** What the host guarantees of an edit mesh: every reference is in range, no
      face is listed twice around an edge, and a face is listed around each of
      its own edges. */
  ghost predicate Valid(m: Mesh) {
    && (forall e | 0 <= e < |m.edges| ::
          && m.edges[e].v0 < |m.vertEdges| && m.edges[e].v1 < |m.vertEdges|
          && Distinct(m.edges[e].linkFaces)
          && forall g | g in m.edges[e].linkFaces :: g < |m.faces|)
    && (forall f | 0 <= f < |m.faces| ::
          forall e | e in m.faces[f].edges :: e < |m.edges| && f in m.edges[e].linkFaces)
    && (forall v | 0 <= v < |m.vertEdges| :: forall e | e in m.vertEdges[v] :: e < |m.edges|)
    && (m.active.Some? ==> m.active.value < |m.edges|)
  }

  /** The ids 0 .. n-1. */
  function IdsBelow(n: nat): (s: set<nat>)
    ensures forall e: nat :: e in s <==> e < n
  {
    if n == 0 then {} else IdsBelow(n - 1) + {n - 1}
  }

  function AllEdges(m: Mesh): set<EdgeId> {
    IdsBelow(|m.edges|)
  }

  /** The edges the user had selected; the walk never dissolves one of them. */
  function InitialSelection(m: Mesh): (s: set<EdgeId>)
    ensures s <= AllEdges(m)
  {
    set e | 0 <= e < |m.edges| && m.edges[e].selected
  }

  /** Why the walk stopped: `single_element` found a number of elements other
      than one, or a list index was out of range. */
  datatype SolverError = NotSingle(count: nat) | IndexError

  /** single_element: the only element of a one-element sequence; any other
      length is an assertion failure that carries the length. */
  function SingleElement<T>(s: seq<T>): (r: Result<T, SolverError>)
    ensures r.Ok? <==> |s| == 1
    ensures r.Ok? ==> s == [r.value]
    ensures r.Err? ==> r.error == NotSingle(|s|)
  {
    if |s| == 1 then Ok(s[0]) else Err(NotSingle(|s|))
  }

  predicate Touches(a: Edge, b: Edge) {
    a.v0 == b.v0 || a.v0 == b.v1 || a.v1 == b.v0 || a.v1 == b.v1
  }

  /** not_near_current_edge: edge e shares no vertex with the current edge. */
  predicate Far(m: Mesh, e: EdgeId, cur: EdgeId) {
    e < |m.edges| && cur < |m.edges| && !Touches(m.edges[e], m.edges[cur])
  }

  predicate IsTri(m: Mesh, g: FaceId) {
    g < |m.faces| && |m.faces[g].verts| == 3
  }

  /** The edges of a list that are not confirmed yet, in list order. */
  function Unconfirmed(es: seq<EdgeId>, c: set<EdgeId>): seq<EdgeId> {
    Filter(es, e => e !in c)
  }

  /** An edge lies between two different triangles: dissolving it merges them
      into one quad. */
  ghost predicate BetweenTriangles(m: Mesh, d: EdgeId) {
    d < |m.edges| &&
    exists g1, g2 :: g1 in m.edges[d].linkFaces && g2 in m.edges[d].linkFaces && g1 != g2 && IsTri(m, g1) && IsTri(m, g2)
  }

  /** What one face contributes: an edge to dissolve, an edge to walk to next
      and an edge to select, each optional. */
  datatype Action = Action(dissolve: Option<EdgeId>, recurse: Option<EdgeId>, select: Option<EdgeId>)

  const NoAction := Action(None, None, None)

  /** The facts the walk relies on: edges are in range, a dissolved edge was
      unconfirmed and lies between two triangles, and an edge is pushed only
      together with an unconfirmed edge that becomes confirmed now. */
  ghost predicate Sound(m: Mesh, c: set<EdgeId>, a: Action) {
    && (a.dissolve.Some? ==> a.dissolve.value !in c && BetweenTriangles(m, a.dissolve.value))
    && (a.select.Some? ==> a.select.value < |m.edges|)
    && (a.recurse.Some? ==> a.recurse.value < |m.edges| && (a.dissolve.Some? || (a.select.Some? && a.select.value !in c)))
  }

  /** The rule for a face that is already a quad: with exactly two unconfirmed
      edges, the one far from the current edge is walked to and the other,
      which touches the current edge, is selected; when both or neither are far
      the walk fails; with any other number of unconfirmed edges the face
      contributes nothing. */
  function QuadRule(m: Mesh, c: set<EdgeId>, cur: EdgeId, f: FaceId): (r: Result<Action, SolverError>)
    requires Valid(m) && cur < |m.edges| && f < |m.faces|
    ensures var o := Unconfirmed(m.faces[f].edges, c);
      && (|o| != 2 ==> r == Ok(NoAction))
      && (|o| == 2 && Far(m, o[0], cur) == Far(m, o[1], cur) ==> r.Err?)
      && (|o| == 2 && Far(m, o[0], cur) && !Far(m, o[1], cur) ==> r == Ok(Action(None, Some(o[0]), Some(o[1]))))
      && (|o| == 2 && !Far(m, o[0], cur) && Far(m, o[1], cur) ==> r == Ok(Action(None, Some(o[1]), Some(o[0]))))
  {
    var o := Unconfirmed(m.faces[f].edges, c);
    if |o| == 2 then
      var far := (e: EdgeId) => Far(m, e, cur);
      FilterTwo(o, far);
      var recurse :- SingleElement(Filter(o, far));
      var other := (e: EdgeId) => e != recurse;
      FilterTwo(o, other);
      match SingleElement(Filter(o, other))
      case Err(e) => Err(e)
      case Ok(select) => Ok(Action(None, Some(recurse), Some(select)))
    else
      Ok(NoAction)
  }

  /** The face across edge t from face f, when there is exactly one and it is
      a triangle. */
  function Across(m: Mesh, t: EdgeId, f: FaceId): (r: Option<FaceId>)
    requires t < |m.edges| && Distinct(m.edges[t].linkFaces)
    requires forall g | g in m.edges[t].linkFaces :: g < |m.faces|
    ensures var lf := m.edges[t].linkFaces;
      && (r.Some? ==> && r.value in lf && r.value != f && IsTri(m, r.value)
                      && forall g | g in lf && g != f :: g == r.value)
      && (r.None? ==> || (forall g | g in lf && g != f :: !IsTri(m, g))
                      || exists g1, g2 :: g1 in lf && g2 in lf && g1 != f && g2 != f && g1 != g2)
  {
    var lf := m.edges[t].linkFaces;
    var others := Filter(lf, NotFace(f));
    if |others| == 0 then
      NoOther(lf, f);
      None
    else if |others| == 1 then
      OnlyOther(lf, f);
      if |m.faces[others[0]].verts| == 3 then Some(others[0]) else None
    else
      FilterDistinct(lf, NotFace(f));
      assert others[0] != others[1] && others[0] in others && others[1] in others;
      None
  }

  /** Selects the faces other than f. */
  function NotFace(f: FaceId): FaceId -> bool {
    g => g != f
  }

  lemma NoOther(lf: seq<FaceId>, f: FaceId)
    requires Filter(lf, NotFace(f)) == []
    ensures forall g | g in lf :: g == f
  {
    forall g | g in lf
      ensures g == f
    {
      assert NotFace(f)(g) ==> g in Filter(lf, NotFace(f));
    }
  }

  lemma OnlyOther(lf: seq<FaceId>, f: FaceId)
    requires |Filter(lf, NotFace(f))| == 1
    ensures var o := Filter(lf, NotFace(f))[0];
      o in lf && o != f && forall g | g in lf && g != f :: g == o
  {
    var others := Filter(lf, NotFace(f));
    assert others[0] in others;
    forall g | g in lf && g != f
      ensures g == others[0]
    {
      assert g in others;
    }
  }

  /** Action a dissolves t, walks to the unique edge of es other than t that
      is far from the current edge, and selects the unique edge left. */
  predicate WalksAcross(m: Mesh, t: EdgeId, cur: EdgeId, es: seq<EdgeId>, a: Action) {
    && a.dissolve == Some(t) && a.recurse.Some? && a.select.Some?
    && a.recurse.value in es && a.recurse.value != t && Far(m, a.recurse.value, cur)
    && (forall e | e in es && e != t && Far(m, e, cur) :: e == a.recurse.value)
    && a.select.value in es && a.select.value != t && a.select.value != a.recurse.value
    && (forall e | e in es && e != t && e != a.recurse.value :: e == a.select.value)
  }

  /** What the one-unconfirmed-edge rule does with the edges es of the
      triangle across t: dissolve t, walk to the one edge other than t far
      from the current edge and select the one edge left; finding a number
      of such edges other than one fails. */
  function WalkAcross(m: Mesh, t: EdgeId, cur: EdgeId, es: seq<EdgeId>): (r: Result<Action, SolverError>)
    ensures r.Ok? ==> WalksAcross(m, t, cur, es, r.value)
    ensures r.Err? ==> r.error.NotSingle?
  {
    var recurse :- SingleElement(Filter(es, FarOther(m, t, cur)));
    var select :- SingleElement(Filter(es, Neither(t, recurse)));
    Ok(Action(Some(t), Some(recurse), Some(select)))
  }

  /** Selects the edges other than t that are far from the current edge. */
  function FarOther(m: Mesh, t: EdgeId, cur: EdgeId): EdgeId -> bool {
    (e: EdgeId) => e != t && Far(m, e, cur)
  }

  /** Selects the edges other than t and x. */
  function Neither(t: EdgeId, x: EdgeId): EdgeId -> bool {
    (e: EdgeId) => e != t && e != x
  }

  /** On a face whose edges are distinct, the one-edge rule succeeds whenever
      a walk across exists: a unique far edge and a unique remaining edge
      give exactly that action. */
  lemma WalkAcrossComplete(m: Mesh, t: EdgeId, cur: EdgeId, es: seq<EdgeId>, a: Action)
    requires Distinct(es) && WalksAcross(m, t, cur, es, a)
    ensures WalkAcross(m, t, cur, es) == Ok(a)
  {
    var recurse, select := a.recurse.value, a.select.value;
    FilterDistinct(es, FarOther(m, t, cur));
    DistinctSingleton(Filter(es, FarOther(m, t, cur)), recurse);
    FilterDistinct(es, Neither(t, recurse));
    DistinctSingleton(Filter(es, Neither(t, recurse)), select);
  }

  /** The rule for a triangle with exactly one unconfirmed edge t: when the
      face across t is a single triangle, t is dissolved, and of that
      triangle's other edges the unique one far from the current edge is
      walked to and the unique remaining one is selected. */
  function TriOneRule(m: Mesh, c: set<EdgeId>, cur: EdgeId, f: FaceId): (r: Result<Action, SolverError>)
    requires Valid(m) && cur < |m.edges| && f < |m.faces|
    requires |Unconfirmed(m.faces[f].edges, c)| == 1
    ensures var t := Unconfirmed(m.faces[f].edges, c)[0];
      var g := Across(m, t, f);
      && t in m.faces[f].edges && t !in c
      && (g.None? ==> r == Ok(NoAction))
      && (r.Err? ==> g.Some?)
      && (g.Some? ==> r == WalkAcross(m, t, cur, m.faces[g.value].edges))
      && (g.Some? && r.Ok? ==> WalksAcross(m, t, cur, m.faces[g.value].edges, r.value))
  {
    var t := Unconfirmed(m.faces[f].edges, c)[0];
    match Across(m, t, f)
    case None => Ok(NoAction)
    case Some(g) => WalkAcross(m, t, cur, m.faces[g].edges)
  }

  /** The unconfirmed edges of face ff other than fe. */
  function Further(m: Mesh, c: set<EdgeId>, ff: FaceId, fe: EdgeId): seq<EdgeId>
    requires ff < |m.faces|
  {
    Filter(m.faces[ff].edges, e => e !in c && e != fe)
  }

  /** Face ff, around edge fe of face f, is a triangle other than f with
      exactly one further unconfirmed edge. */
  predicate PairAt(m: Mesh, c: set<EdgeId>, f: FaceId, fe: EdgeId, ff: FaceId) {
    ff != f && IsTri(m, ff) && |Further(m, c, ff, fe)| == 1
  }

  /** The j-th face around the i-th edge of o is the first pair in the order
      "edges of o, then faces around that edge". */
  predicate FirstPair(m: Mesh, c: set<EdgeId>, f: FaceId, o: seq<EdgeId>, i: nat, j: nat) {
    && i < |o| && o[i] < |m.edges| && j < |m.edges[o[i]].linkFaces|
    && PairAt(m, c, f, o[i], m.edges[o[i]].linkFaces[j])
    && (forall i', j' | 0 <= i' < i && o[i'] < |m.edges| && 0 <= j' < |m.edges[o[i']].linkFaces| ::
          !PairAt(m, c, f, o[i'], m.edges[o[i']].linkFaces[j']))
    && (forall j' | 0 <= j' < j :: !PairAt(m, c, f, o[i], m.edges[o[i]].linkFaces[j']))
  }

  predicate NoPair(m: Mesh, c: set<EdgeId>, f: FaceId, o: seq<EdgeId>) {
    forall i, j | 0 <= i < |o| && o[i] < |m.edges| && 0 <= j < |m.edges[o[i]].linkFaces| ::
      !PairAt(m, c, f, o[i], m.edges[o[i]].linkFaces[j])
  }

  /** The search of the two-unconfirmed-edges rule: the first (edge, face)
      pair in iteration order, or none. */
  method FindTriPair(m: Mesh, c: set<EdgeId>, f: FaceId, o: seq<EdgeId>) returns (hit: Option<(nat, nat)>)
    requires forall k | 0 <= k < |o| :: o[k] < |m.edges|
    ensures hit.Some? ==> FirstPair(m, c, f, o, hit.value.0, hit.value.1)
    ensures hit.None? ==> NoPair(m, c, f, o)
    ensures hit == PairFrom(m, c, f, o, 0, 0)
  {
    hit := None;
    var i := 0;
    while i < |o| && hit.None?
      invariant 0 <= i <= |o|
      invariant hit.None? ==>
        forall i', j' | 0 <= i' < i && 0 <= j' < |m.edges[o[i']].linkFaces| ::
          !PairAt(m, c, f, o[i'], m.edges[o[i']].linkFaces[j'])
      invariant hit.Some? ==> FirstPair(m, c, f, o, hit.value.0, hit.value.1)
    {
      var faces := m.edges[o[i]].linkFaces;
      var j := 0;
      while j < |faces|
        invariant 0 <= j <= |faces|
        invariant forall j' | 0 <= j' < j :: !PairAt(m, c, f, o[i], faces[j'])
      {
        if PairAt(m, c, f, o[i], faces[j]) {
          hit := Some((i, j));
          break;
        }
        j := j + 1;
      }
      i := i + 1;
    }
    PairFromSpec(m, c, f, o, 0, 0);
    if hit.Some? && PairFrom(m, c, f, o, 0, 0).Some? {
      var p := PairFrom(m, c, f, o, 0, 0).value;
      FirstPairUnique(m, c, f, o, hit.value.0, hit.value.1, p.0, p.1);
    }
  }

  /** The search order of the two-unconfirmed-edges rule as a function: the
      first pair at or after the j-th face around the i-th edge of o. */
  function PairFrom(m: Mesh, c: set<EdgeId>, f: FaceId, o: seq<EdgeId>, i: nat, j: nat): Option<(nat, nat)>
    requires forall k | 0 <= k < |o| :: o[k] < |m.edges|
    decreases |o| - i, if i < |o| then |m.edges[o[i]].linkFaces| - j else 0
  {
    if i >= |o| then None
    else if j >= |m.edges[o[i]].linkFaces| then PairFrom(m, c, f, o, i + 1, 0)
    else if PairAt(m, c, f, o[i], m.edges[o[i]].linkFaces[j]) then Some((i, j))
    else PairFrom(m, c, f, o, i, j + 1)
  }

  /** Searching from (i, j), with no pair before it, finds the first pair, or
      none exactly when there is no pair at all. */
  lemma {:induction false} PairFromSpec(m: Mesh, c: set<EdgeId>, f: FaceId, o: seq<EdgeId>, i: nat, j: nat)
    requires forall k | 0 <= k < |o| :: o[k] < |m.edges|
    requires forall i', j' | 0 <= i' < i && i' < |o| && 0 <= j' < |m.edges[o[i']].linkFaces| ::
      !PairAt(m, c, f, o[i'], m.edges[o[i']].linkFaces[j'])
    requires i < |o| ==> forall j' | 0 <= j' < j && j' < |m.edges[o[i]].linkFaces| ::
      !PairAt(m, c, f, o[i], m.edges[o[i]].linkFaces[j'])
    ensures var r := PairFrom(m, c, f, o, i, j);
      && (r.Some? ==> FirstPair(m, c, f, o, r.value.0, r.value.1))
      && (r.None? ==> NoPair(m, c, f, o))
    decreases |o| - i, if i < |o| then |m.edges[o[i]].linkFaces| - j else 0
  {
    if i < |o| {
      if j >= |m.edges[o[i]].linkFaces| {
        PairFromSpec(m, c, f, o, i + 1, 0);
      } else if !PairAt(m, c, f, o[i], m.edges[o[i]].linkFaces[j]) {
        PairFromSpec(m, c, f, o, i, j + 1);
      }
    }
  }

  /** Two first pairs are the same pair. */
  lemma FirstPairUnique(m: Mesh, c: set<EdgeId>, f: FaceId, o: seq<EdgeId>, i: nat, j: nat, i2: nat, j2: nat)
    requires FirstPair(m, c, f, o, i, j) && FirstPair(m, c, f, o, i2, j2)
    ensures i == i2 && j == j2
  {
  }

  /** Selects the edges other than fe. */
  function Other(fe: EdgeId): EdgeId -> bool {
    e => e != fe
  }

  /** The edges of a two-edge list other than its i-th: the other one, unless
      the list names the same edge twice. */
  lemma OtherOfTwo(o: seq<EdgeId>, i: nat)
    requires |o| == 2 && i < 2
    ensures Filter(o, Other(o[i])) == if o[1 - i] == o[i] then [] else [o[1 - i]]
  {
    FilterTwo(o, Other(o[i]));
  }

  /** What the two-unconfirmed-edges rule returns at its first pair (i, j):
      o[i] is dissolved, the further edge of the triangle across it is walked
      to and the other edge of o is selected; when o names one edge twice
      there is no other edge and the list index fails. */
  function PairResult(m: Mesh, c: set<EdgeId>, f: FaceId, o: seq<EdgeId>, i: nat, j: nat): Result<Action, SolverError>
    requires |o| == 2 && FirstPair(m, c, f, o, i, j)
  {
    if o[1 - i] == o[i] then Err(IndexError)
    else Ok(Action(Some(o[i]), Some(Further(m, c, m.edges[o[i]].linkFaces[j], o[i])[0]), Some(o[1 - i])))
  }

  /** The two-unconfirmed-edges rule as a function: nothing without a pair,
      otherwise the result at the first pair. */
  function TriTwo(m: Mesh, c: set<EdgeId>, f: FaceId, o: seq<EdgeId>): Result<Action, SolverError>
    requires |o| == 2 && forall k | 0 <= k < |o| :: o[k] < |m.edges|
  {
    var hit := PairFrom(m, c, f, o, 0, 0);
    if hit.None? then Ok(NoAction)
    else
      PairFromSpec(m, c, f, o, 0, 0);
      PairResult(m, c, f, o, hit.value.0, hit.value.1)
  }

  /** The rule for a triangle f whose unconfirmed edges are exactly o[0] and
      o[1]: at the first triangle across one of them (other than f) that has
      exactly one further unconfirmed edge, that edge of o is dissolved, the
      further edge is walked to and the other edge of o is selected; without
      such a triangle the face contributes nothing. */
  method TriTwoRule(m: Mesh, c: set<EdgeId>, f: FaceId, o: seq<EdgeId>) returns (r: Result<Action, SolverError>)
    requires Valid(m) && IsTri(m, f)
    requires o == Unconfirmed(m.faces[f].edges, c) && |o| == 2
    ensures r.Ok? ==> Sound(m, c, r.value)
    ensures r == Ok(NoAction) <==> NoPair(m, c, f, o)
    ensures forall i: nat, j: nat | FirstPair(m, c, f, o, i, j) :: r == PairResult(m, c, f, o, i, j)
    ensures r == TriTwo(m, c, f, o)
  {
    assert o[0] in o && o[1] in o;
    var hit := FindTriPair(m, c, f, o);
    if hit.None? {
      return Ok(NoAction);
    }
    var (i, j) := hit.value;
    var fe := o[i];
    var g := m.edges[fe].linkFaces[j];
    var further := Further(m, c, g, fe);
    var rest := Filter(o, Other(fe));
    OtherOfTwo(o, i);
    if |rest| == 0 {
      r := Err(IndexError);
    } else {
      r := Ok(Action(Some(fe), Some(further[0]), Some(rest[0])));
    }
    TriTwoAt(m, c, f, o, i, j);
  }

  /** The two-unconfirmed-edges rule at its first pair: the pair is the only
      first pair, and the action is sound, the edge of o it dissolves
      separating f from another triangle. */
  lemma TriTwoAt(m: Mesh, c: set<EdgeId>, f: FaceId, o: seq<EdgeId>, i: nat, j: nat)
    requires Valid(m) && IsTri(m, f)
    requires o == Unconfirmed(m.faces[f].edges, c) && |o| == 2
    requires FirstPair(m, c, f, o, i, j)
    ensures PairResult(m, c, f, o, i, j).Ok? ==> Sound(m, c, PairResult(m, c, f, o, i, j).value)
    ensures forall i2: nat, j2: nat | FirstPair(m, c, f, o, i2, j2) :: i2 == i && j2 == j
  {
    forall i2: nat, j2: nat | FirstPair(m, c, f, o, i2, j2)
      ensures i2 == i && j2 == j
    {
      FirstPairUnique(m, c, f, o, i, j, i2, j2);
    }
    if o[1 - i] != o[i] {
      var fe := o[i];
      var g := m.edges[fe].linkFaces[j];
      var further := Further(m, c, g, fe);
      assert o[0] in o && o[1] in o;
      assert f in m.edges[fe].linkFaces && g in m.edges[fe].linkFaces;
      assert further[0] in further;
    }
  }

  /** The quad rule only dissolves nothing, and walks on only while selecting
      an unconfirmed edge. */
  lemma QuadRuleSound(m: Mesh, c: set<EdgeId>, cur: EdgeId, f: FaceId)
    requires Valid(m) && cur < |m.edges| && f < |m.faces|
    ensures QuadRule(m, c, cur, f).Ok? ==> Sound(m, c, QuadRule(m, c, cur, f).value)
  {
    var o := Unconfirmed(m.faces[f].edges, c);
    if |o| == 2 {
      assert o[0] in o && o[1] in o;
    }
  }

  /** The one-unconfirmed-edge rule dissolves an unconfirmed edge between two
      triangles whenever it acts. */
  lemma TriOneRuleSound(m: Mesh, c: set<EdgeId>, cur: EdgeId, f: FaceId)
    requires Valid(m) && cur < |m.edges| && IsTri(m, f)
    requires |Unconfirmed(m.faces[f].edges, c)| == 1
    ensures TriOneRule(m, c, cur, f).Ok? ==> Sound(m, c, TriOneRule(m, c, cur, f).value)
  {
    var t := Unconfirmed(m.faces[f].edges, c)[0];
    if Across(m, t, f).Some? && TriOneRule(m, c, cur, f).Ok? {
      assert f in m.edges[t].linkFaces;
    }
  }

  /** The two-unconfirmed-edges rule is sound, its edges being edges of f. */
  lemma TriTwoSound(m: Mesh, c: set<EdgeId>, f: FaceId, o: seq<EdgeId>)
    requires Valid(m) && IsTri(m, f)
    requires o == Unconfirmed(m.faces[f].edges, c) && |o| == 2
    ensures forall k | 0 <= k < |o| :: o[k] < |m.edges|
    ensures TriTwo(m, c, f, o).Ok? ==> Sound(m, c, TriTwo(m, c, f, o).value)
  {
    assert o[0] in o && o[1] in o;
    PairFromSpec(m, c, f, o, 0, 0);
    var hit := PairFrom(m, c, f, o, 0, 0);
    if hit.Some? {
      TriTwoAt(m, c, f, o, hit.value.0, hit.value.1);
    }
  }

  /** What one face around the current edge cur contributes, given the
      confirmed edges c: the quad rule for quads, the one- and
      two-unconfirmed-edge rules for triangles, nothing for any other face.
      Every action is sound. */
  function Classify(m: Mesh, c: set<EdgeId>, cur: EdgeId, f: FaceId): (r: Result<Action, SolverError>)
    requires Valid(m) && cur < |m.edges| && f < |m.faces|
    ensures r.Ok? ==> Sound(m, c, r.value)
  {
    var o := Unconfirmed(m.faces[f].edges, c);
    if |m.faces[f].verts| == 4 then
      QuadRuleSound(m, c, cur, f);
      QuadRule(m, c, cur, f)
    else if |m.faces[f].verts| == 3 && |o| == 1 then
      TriOneRuleSound(m, c, cur, f);
      TriOneRule(m, c, cur, f)
    else if |m.faces[f].verts| == 3 && |o| == 2 then
      TriTwoSound(m, c, f, o);
      TriTwo(m, c, f, o)
    else
      Ok(NoAction)
  }

  /** Classifies one face around the current edge cur, given the confirmed
      edges c: the quad rule for quads, the one- and two-unconfirmed-edge
      rules for triangles, nothing for any other face. */
  method ClassifyFace(m: Mesh, c: set<EdgeId>, cur: EdgeId, f: FaceId) returns (r: Result<Action, SolverError>)
    requires Valid(m) && cur < |m.edges| && f < |m.faces|
    ensures r.Ok? ==> Sound(m, c, r.value)
    ensures |m.faces[f].verts| == 4 ==> r == QuadRule(m, c, cur, f)
    ensures var o := Unconfirmed(m.faces[f].edges, c);
      && (|m.faces[f].verts| == 3 && |o| == 1 ==> r == TriOneRule(m, c, cur, f))
      && (|m.faces[f].verts| == 3 && |o| == 2 ==> (r == Ok(NoAction) <==> NoPair(m, c, f, o)))
      && (|m.faces[f].verts| == 3 && |o| == 2 ==>
            forall i: nat, j: nat | FirstPair(m, c, f, o, i, j) :: r == PairResult(m, c, f, o, i, j))
      && (|m.faces[f].verts| == 3 && |o| != 1 && |o| != 2 ==> r == Ok(NoAction))
    ensures |m.faces[f].verts| != 3 && |m.faces[f].verts| != 4 ==> r == Ok(NoAction)
    ensures r == Classify(m, c, cur, f)
  {
    var face := m.faces[f];
    var o := Unconfirmed(face.edges, c);
    r := Ok(NoAction);
    if |face.verts| == 4 {
      QuadRuleSound(m, c, cur, f);
      r := QuadRule(m, c, cur, f);
    } else if |face.verts| == 3 {
      if |o| == 1 {
        TriOneRuleSound(m, c, cur, f);
        r := TriOneRule(m, c, cur, f);
      } else if |o| == 2 {
        r := TriTwoRule(m, c, f, o);
      }
    }
  }

  /** The outcome of picking the next active edge: the assertion that exactly
      one vertex of the active edge touches a selected edge failed (with the
      number found), no candidate edge was left, or the new active edge. */
  datatype NextActive = PivotNotUnique(count: nat) | NoCandidate | NewActive(edge: EdgeId)

  /** The edges around vertex v once the dissolved ones are gone. */
  function LinkEdgesAfter(m: Mesh, v: VertId, dissolved: set<EdgeId>): seq<EdgeId>
    requires v < |m.vertEdges|
  {
    Filter(m.vertEdges[v], e => e !in dissolved)
  }

  /** Vertex v is on an edge that ends up selected. */
  predicate IsPivot(m: Mesh, v: VertId, dissolved: set<EdgeId>, selected: set<EdgeId>) {
    v < |m.vertEdges| && exists e :: e in m.vertEdges[v] && e !in dissolved && e in selected
  }

  /** The position of the first element with the largest score: what a stable
      sort by decreasing score puts first. */
  function FirstMax(s: seq<EdgeId>, score: EdgeId -> real): (k: nat)
    requires |s| > 0
    ensures k < |s|
    ensures forall j | 0 <= j < |s| :: score(s[j]) <= score(s[k])
    ensures forall j | 0 <= j < k :: score(s[j]) < score(s[k])
  {
    if |s| == 1 then 0
    else
      var k := FirstMax(s[..|s| - 1], score);
      if score(s[k]) < score(s[|s| - 1]) then |s| - 1 else k
  }

  /** The edges around vertex v that could become active: neither confirmed
      nor dissolved, in the order of v's link edges. */
  function Candidates(m: Mesh, v: VertId, confirmed: set<EdgeId>, dissolved: set<EdgeId>): (r: seq<EdgeId>)
    requires v < |m.vertEdges|
    ensures forall e | e in r :: e in m.vertEdges[v] && e !in confirmed && e !in dissolved
    ensures forall e | e in m.vertEdges[v] && e !in confirmed && e !in dissolved :: e in r
  {
    Filter(LinkEdgesAfter(m, v, dissolved), e => e !in confirmed)
  }

  /** The choice of the next active edge. Exactly one vertex of the active
      edge must touch a selected edge; among the edges around that vertex that
      are neither confirmed nor dissolved, the first with the largest score
      (how parallel it is to the active edge) becomes active. */
  function ChooseNext(m: Mesh, active: EdgeId, confirmed: set<EdgeId>, dissolved: set<EdgeId>,
                      selected: set<EdgeId>, score: EdgeId -> real): (r: NextActive)
    requires active < |m.edges| && m.edges[active].v0 < |m.vertEdges| && m.edges[active].v1 < |m.vertEdges|
    ensures var a := m.edges[active];
      && (r.PivotNotUnique? <==> IsPivot(m, a.v0, dissolved, selected) == IsPivot(m, a.v1, dissolved, selected))
      && (!r.PivotNotUnique? ==>
            var v := if IsPivot(m, a.v0, dissolved, selected) then a.v0 else a.v1;
            && (r.NoCandidate? <==> forall e | e in m.vertEdges[v] :: e in confirmed || e in dissolved)
            && (r.NewActive? ==>
                  && r.edge in m.vertEdges[v] && r.edge !in confirmed && r.edge !in dissolved
                  && forall e | e in m.vertEdges[v] && e !in confirmed && e !in dissolved :: score(e) <= score(r.edge)))
  {
    var a := m.edges[active];
    var isPivot := (v: VertId) => IsPivot(m, v, dissolved, selected);
    FilterTwo([a.v0, a.v1], isPivot);
    var pivots := Filter([a.v0, a.v1], isPivot);
    match SingleElement(pivots)
    case Err(_) => PivotNotUnique(|pivots|)
    case Ok(v) =>
      var candidates := Candidates(m, v, confirmed, dissolved);
      if |candidates| == 0 then NoCandidate
      else
        var k := FirstMax(candidates, score);
        assert candidates[k] in candidates;
        NewActive(candidates[k])
  }

  /** The result of the operator: cancelled for want of an active edge,
      aborted by a failed assertion or index during the walk (before anything
      was dissolved), or finished with the three edge sets of the walk and the
      next active edge. */
  datatype Outcome =
    | Cancelled
    | Aborted(error: SolverError)
    | Finished(confirmed: set<EdgeId>, dissolve: set<EdgeId>, select: set<EdgeId>, next: NextActive)

  /** The state of the walk: the confirmed edges (never dissolved from now
      on), the edges to dissolve and to select at the end, and the LIFO list of
      edges still to visit. */
  datatype Walk = Walk(confirmed: set<EdgeId>, dissolve: set<EdgeId>, select: set<EdgeId>, remaining: seq<EdgeId>)

  /** What the walk keeps true: the user's selection stays confirmed and is
      never dissolved, every edge to dissolve or select is confirmed, every
      edge to dissolve lies between two triangles, and every id is in range. */
  ghost predicate WalkInv(m: Mesh, w: Walk) {
    && InitialSelection(m) <= w.confirmed <= AllEdges(m)
    && w.dissolve <= w.confirmed && w.select <= w.confirmed
    && w.dissolve !! InitialSelection(m)
    && (forall d | d in w.dissolve :: BetweenTriangles(m, d))
    && (forall k | 0 <= k < |w.remaining| :: w.remaining[k] < |m.edges|)
  }

  /** Twice the number of unconfirmed edges plus the length of the work list:
      every push comes with a newly confirmed edge, so this bounds the walk. */
  function Measure(m: Mesh, w: Walk): nat {
    2 * |AllEdges(m) - w.confirmed| + |w.remaining|
  }

  /** One face's contribution: the edge to dissolve becomes confirmed, the
      edge to walk to is pushed, the edge to select becomes confirmed. */
  function Apply(w: Walk, a: Action): Walk {
    var d := if a.dissolve.Some? then {a.dissolve.value} else {};
    var s := if a.select.Some? then {a.select.value} else {};
    var pushed := if a.recurse.Some? then [a.recurse.value] else [];
    Walk(w.confirmed + d + s, w.dissolve + d, w.select + s, w.remaining + pushed)
  }

  /** A sound action keeps the walk's invariant, and the confirmed edges only
      grow: they gain the edges dissolved and selected now. */
  lemma ApplyKeeps(m: Mesh, w: Walk, a: Action)
    requires WalkInv(m, w) && Sound(m, w.confirmed, a)
    ensures WalkInv(m, Apply(w, a))
    ensures w.confirmed <= Apply(w, a).confirmed
    ensures a.dissolve.Some? ==> a.dissolve.value in Apply(w, a).confirmed
    ensures a.select.Some? ==> a.select.value in Apply(w, a).confirmed
  {
    var w' := Apply(w, a);
    forall k | 0 <= k < |w'.remaining|
      ensures w'.remaining[k] < |m.edges|
    {
      if k < |w.remaining| {
        assert w'.remaining[k] == w.remaining[k];
      }
    }
    if a.dissolve.Some? {
      assert a.dissolve.value !in InitialSelection(m);
    }
  }

  /** A subset is no larger than its superset. */
  lemma {:induction false} SubsetCard<T>(a: set<T>, b: set<T>)
    requires a <= b
    ensures |a| <= |b|
    decreases |a|
  {
    if a != {} {
      var x :| x in a;
      SubsetCard(a - {x}, b - {x});
    }
  }

  /** A sound action never increases the walk's measure: an edge is pushed
      only together with an edge that leaves the unconfirmed ones. */
  lemma ApplyLowers(m: Mesh, w: Walk, a: Action)
    requires Sound(m, w.confirmed, a)
    ensures Measure(m, Apply(w, a)) <= Measure(m, w)
  {
    var u := AllEdges(m) - w.confirmed;
    var u' := AllEdges(m) - Apply(w, a).confirmed;
    if a.dissolve.Some? {
      SubsetCard(u', u - {a.dissolve.value});
    } else if a.select.Some? && a.select.value !in w.confirmed {
      SubsetCard(u', u - {a.select.value});
    } else {
      SubsetCard(u', u);
    }
  }

  /** The walk after popping the last edge of the work list and confirming
      it. */
  function Popped(w: Walk): Walk
    requires |w.remaining| > 0
  {
    var e := w.remaining[|w.remaining| - 1];
    w.(remaining := w.remaining[..|w.remaining| - 1], confirmed := w.confirmed + {e})
  }

  /** Popping an edge and confirming it lowers the measure. */
  lemma PopLowers(m: Mesh, w: Walk)
    requires WalkInv(m, w) && |w.remaining| > 0
    ensures WalkInv(m, Popped(w)) && Measure(m, Popped(w)) < Measure(m, w)
  {
    var e := w.remaining[|w.remaining| - 1];
    SubsetCard(AllEdges(m) - (w.confirmed + {e}), AllEdges(m) - w.confirmed);
  }

  /** The visit of the faces around a popped edge, from the k-th on, in
      link order: each face contributes its action, and the first failing
      rule aborts the walk. */
  function VisitFaces(m: Mesh, w: Walk, edge: EdgeId, k: nat): (r: Result<Walk, SolverError>)
    requires Valid(m) && WalkInv(m, w) && edge < |m.edges| && k <= |m.edges[edge].linkFaces|
    ensures r.Ok? ==> WalkInv(m, r.value) && w.confirmed <= r.value.confirmed && Measure(m, r.value) <= Measure(m, w)
    decreases |m.edges[edge].linkFaces| - k
  {
    var faces := m.edges[edge].linkFaces;
    if k == |faces| then Ok(w)
    else
      assert faces[k] in faces;
      match Classify(m, w.confirmed, edge, faces[k])
      case Err(e) => Err(e)
      case Ok(a) =>
        ApplyKeeps(m, w, a);
        ApplyLowers(m, w, a);
        VisitFaces(m, Apply(w, a), edge, k + 1)
  }

  /** The walk as a function: pop the last edge, confirm it, visit the faces
      around it, and go on until the work list is empty or a rule fails. */
  function Run(m: Mesh, w: Walk): (r: Result<Walk, SolverError>)
    requires Valid(m) && WalkInv(m, w)
    ensures r.Ok? ==> WalkInv(m, r.value) && r.value.remaining == [] && w.confirmed <= r.value.confirmed
    decreases Measure(m, w)
  {
    if |w.remaining| == 0 then Ok(w)
    else
      var edge := w.remaining[|w.remaining| - 1];
      PopLowers(m, w);
      match VisitFaces(m, Popped(w), edge, 0)
      case Err(e) => Err(e)
      case Ok(w') => Run(m, w')
  }

  /** What the operator computes: cancelled without an active edge; otherwise
      the walk from the active edge over the user's selection, aborted by the
      first failing rule or finished with its edge sets and the next active
      edge. */
  function Solve(m: Mesh, score: EdgeId -> real): (out: Outcome)
    requires Valid(m)
    ensures out.Cancelled? <==> m.active.None?
    ensures out.Finished? ==>
      && InitialSelection(m) <= out.confirmed <= AllEdges(m)
      && out.dissolve <= out.confirmed && out.select <= out.confirmed
      && out.dissolve !! InitialSelection(m)
      && (forall d | d in out.dissolve :: BetweenTriangles(m, d))
  {
    if m.active.None? then Cancelled
    else
      var active := m.active.value;
      match Run(m, Walk(InitialSelection(m), {}, {}, [active]))
      case Err(e) => Aborted(e)
      case Ok(w) => Finished(w.confirmed, w.dissolve, w.select, ChooseNext(m, active, w.confirmed, w.dissolve, w.select, score))
  }

  /** The inner loop of the walk: the faces around a popped edge, in link
      order, each contributing its action until a rule fails. */
  method VisitEdge(m: Mesh, w0: Walk, edge: EdgeId) returns (r: Result<Walk, SolverError>)
    requires Valid(m) && WalkInv(m, w0) && edge < |m.edges|
    ensures r == VisitFaces(m, w0, edge, 0)
  {
    var w := w0;
    var faces := m.edges[edge].linkFaces;
    var k := 0;
    while k < |faces|
      invariant 0 <= k <= |faces|
      invariant WalkInv(m, w)
      invariant VisitFaces(m, w, edge, k) == VisitFaces(m, w0, edge, 0)
    {
      assert faces[k] in faces;
      var a := ClassifyFace(m, w.confirmed, edge, faces[k]);
      if a.Err? {
        return Err(a.error);
      }
      ApplyKeeps(m, w, a.value);
      w := Apply(w, a.value);
      k := k + 1;
    }
    return Ok(w);
  }

  /** AT_TrisToQuads.execute. `score(e)` stands for the absolute dot product
      of the normalised directions of e and of the active edge. */
  method TrisToQuads(m: Mesh, score: EdgeId -> real) returns (out: Outcome)
    requires Valid(m)
    ensures out.Cancelled? <==> m.active.None?
    ensures out.Finished? ==>
      && m.active.value in out.confirmed
      && InitialSelection(m) <= out.confirmed <= AllEdges(m)
      && out.dissolve <= out.confirmed && out.select <= out.confirmed
      && out.dissolve !! InitialSelection(m)
      && (forall d | d in out.dissolve :: BetweenTriangles(m, d))
      && out.next == ChooseNext(m, m.active.value, out.confirmed, out.dissolve, out.select, score)
    ensures out == Solve(m, score)
  {
    if m.active.None? {
      return Cancelled;
    }
    var active := m.active.value;
    var w := Walk(InitialSelection(m), {}, {}, [active]);
    ghost var start := w;
    while |w.remaining| > 0
      invariant WalkInv(m, w)
      invariant active in w.confirmed || w.remaining == [active]
      invariant Run(m, w) == Run(m, start)
      decreases Measure(m, w)
    {
      var edge := w.remaining[|w.remaining| - 1];
      PopLowers(m, w);
      w := w.(remaining := w.remaining[..|w.remaining| - 1], confirmed := w.confirmed + {edge});
      var r := VisitEdge(m, w, edge);
      if r.Err? {
        return Aborted(r.error);
      }
      w := r.value;
    }

    var next := ChooseNext(m, active, w.confirmed, w.dissolve, w.select, score);
    return Finished(w.confirmed, w.dissolve, w.select, next);
  }

  /** Faces PQR, PQUY, QRS, YURX and RSX over the vertices P, Q, R, S, U, X,
      Y (0..6), with edges PQ, QR, PR, QU, UY, YP, RS, SQ, UR, RX, XY and SX
      (0..11). PR, YP, XY and SX are selected and PQ is active. */
  function SampleMesh(): Mesh {
    Mesh([[0, 2, 5], [0, 1, 3, 7], [1, 2, 6, 8, 9], [6, 7, 11], [3, 4, 8], [9, 10, 11], [4, 5, 10]],
         [Edge(0, 1, [0, 1], false), Edge(1, 2, [0, 2], false), Edge(0, 2, [0], true),
          Edge(1, 4, [1], false), Edge(4, 6, [1, 3], false), Edge(6, 0, [1], true),
          Edge(2, 3, [2, 4], false), Edge(3, 1, [2], false), Edge(4, 2, [3], false),
          Edge(2, 5, [3, 4], false), Edge(5, 6, [3], true), Edge(3, 5, [4], true)],
         [Face([0, 1, 2], [0, 1, 2]), Face([0, 1, 4, 6], [0, 3, 4, 5]), Face([1, 2, 3], [1, 6, 7]),
          Face([6, 4, 2, 5], [4, 8, 9, 10]), Face([2, 3, 5], [6, 11, 9])],
         Some(0))
  }

  lemma SampleValid()
    ensures Valid(SampleMesh())
  {
    SampleEdges();
    SampleFaces();
    SampleVerts();
  }

  lemma SampleEdges()
    ensures var m := SampleMesh();
      forall e | 0 <= e < |m.edges| ::
        && m.edges[e].v0 < |m.vertEdges| && m.edges[e].v1 < |m.vertEdges|
        && Distinct(m.edges[e].linkFaces)
        && forall g | g in m.edges[e].linkFaces :: g < |m.faces|
  {
  }

  lemma SampleFaces()
    ensures var m := SampleMesh();
      forall f | 0 <= f < |m.faces| ::
        forall e | e in m.faces[f].edges :: e < |m.edges| && f in m.edges[e].linkFaces
  {
  }

  lemma SampleVerts()
    ensures var m := SampleMesh();
      forall v | 0 <= v < |m.vertEdges| :: forall e | e in m.vertEdges[v] :: e < |m.edges|
  {
  }

  /** A face none of whose edges is unconfirmed contributes nothing. */
  lemma ClassifyDone(m: Mesh, c: set<EdgeId>, cur: EdgeId, f: FaceId)
    requires Valid(m) && cur < |m.edges| && f < |m.faces|
    requires Unconfirmed(m.faces[f].edges, c) == []
    ensures Classify(m, c, cur, f) == Ok(NoAction)
  {
  }

  /** A quad with unconfirmed edges x, near the current edge, and y, far from
      it: y is walked to and x is selected. */
  lemma ClassifyQuad(m: Mesh, c: set<EdgeId>, cur: EdgeId, f: FaceId, x: EdgeId, y: EdgeId)
    requires Valid(m) && cur < |m.edges| && f < |m.faces| && |m.faces[f].verts| == 4
    requires Unconfirmed(m.faces[f].edges, c) == [x, y] && !Far(m, x, cur) && Far(m, y, cur)
    ensures Classify(m, c, cur, f) == Ok(Action(None, Some(y), Some(x)))
  {
  }

  /** A triangle whose one unconfirmed edge t has the triangle g across it:
      the one-edge rule's walk across g. */
  lemma ClassifyTriOne(m: Mesh, c: set<EdgeId>, cur: EdgeId, f: FaceId, t: EdgeId, g: FaceId, a: Action)
    requires Valid(m) && cur < |m.edges| && IsTri(m, f) && t < |m.edges| && g < |m.faces|
    requires Unconfirmed(m.faces[f].edges, c) == [t] && Across(m, t, f) == Some(g)
    requires WalkAcross(m, t, cur, m.faces[g].edges) == Ok(a)
    ensures Classify(m, c, cur, f) == Ok(a)
  {
  }

  /** Visiting one face whose rule returns action a applies a. */
  lemma VisitStep(m: Mesh, w: Walk, edge: EdgeId, k: nat, a: Action)
    requires Valid(m) && WalkInv(m, w) && edge < |m.edges| && k < |m.edges[edge].linkFaces|
    requires m.edges[edge].linkFaces[k] < |m.faces|
    requires Classify(m, w.confirmed, edge, m.edges[edge].linkFaces[k]) == Ok(a)
    ensures WalkInv(m, Apply(w, a))
    ensures VisitFaces(m, w, edge, k) == VisitFaces(m, Apply(w, a), edge, k + 1)
  {
    ApplyKeeps(m, w, a);
  }

  /** A walk step at an edge with one face around it. */
  lemma StepOne(m: Mesh, w: Walk, a: Action)
    requires Valid(m) && WalkInv(m, w) && |w.remaining| > 0
    requires var edge := w.remaining[|w.remaining| - 1];
      && |m.edges[edge].linkFaces| == 1 && m.edges[edge].linkFaces[0] < |m.faces|
      && Classify(m, Popped(w).confirmed, edge, m.edges[edge].linkFaces[0]) == Ok(a)
    ensures WalkInv(m, Apply(Popped(w), a)) && Run(m, w) == Run(m, Apply(Popped(w), a))
  {
    var edge := w.remaining[|w.remaining| - 1];
    PopLowers(m, w);
    VisitStep(m, Popped(w), edge, 0, a);
  }

  /** A walk step at an edge with two faces around it. */
  lemma StepTwo(m: Mesh, w: Walk, a: Action, b: Action)
    requires Valid(m) && WalkInv(m, w) && |w.remaining| > 0
    requires var edge := w.remaining[|w.remaining| - 1];
      && |m.edges[edge].linkFaces| == 2
      && m.edges[edge].linkFaces[0] < |m.faces| && m.edges[edge].linkFaces[1] < |m.faces|
      && Classify(m, Popped(w).confirmed, edge, m.edges[edge].linkFaces[0]) == Ok(a)
      && Classify(m, Apply(Popped(w), a).confirmed, edge, m.edges[edge].linkFaces[1]) == Ok(b)
    ensures WalkInv(m, Apply(Apply(Popped(w), a), b))
    ensures Run(m, w) == Run(m, Apply(Apply(Popped(w), a), b))
  {
    var edge := w.remaining[|w.remaining| - 1];
    PopLowers(m, w);
    VisitStep(m, Popped(w), edge, 0, a);
    VisitStep(m, Apply(Popped(w), a), edge, 1, b);
  }

  /** A list whose edges are all confirmed has none unconfirmed. */
  lemma {:induction false} AllConfirmed(es: seq<EdgeId>, c: set<EdgeId>)
    requires forall e | e in es :: e in c
    ensures Unconfirmed(es, c) == []
  {
    if es != [] {
      assert es[0] in es;
      assert forall e | e in es[1..] :: e in es;
      AllConfirmed(es[1..], c);
    }
  }

  /** Of three edges, only the first is unconfirmed. */
  lemma UnconfirmedFirst(x: EdgeId, y: EdgeId, z: EdgeId, c: set<EdgeId>)
    requires x !in c && y in c && z in c
    ensures Unconfirmed([x, y, z], c) == [x]
  {
    var s: seq<EdgeId> := [x, y, z];
    assert s[1..] == [y, z] && s[1..][1..] == [z] && s[1..][1..][1..] == [];
    assert Unconfirmed([z], c) == [];
    assert Unconfirmed([y, z], c) == [];
  }

  /** Of three edges, only the middle one is unconfirmed. */
  lemma UnconfirmedMiddle(x: EdgeId, y: EdgeId, z: EdgeId, c: set<EdgeId>)
    requires x in c && y !in c && z in c
    ensures Unconfirmed([x, y, z], c) == [y]
  {
    var s: seq<EdgeId> := [x, y, z];
    assert s[1..] == [y, z] && s[1..][1..] == [z] && s[1..][1..][1..] == [];
    assert Unconfirmed([z], c) == [];
    assert Unconfirmed([y, z], c) == [y];
  }

  /** Of four edges, only the middle two are unconfirmed. */
  lemma UnconfirmedMiddleTwo(x: EdgeId, y: EdgeId, z: EdgeId, u: EdgeId, c: set<EdgeId>)
    requires x in c && y !in c && z !in c && u in c
    ensures Unconfirmed([x, y, z, u], c) == [y, z]
  {
    var s: seq<EdgeId> := [x, y, z, u];
    assert s[1..] == [y, z, u] && s[1..][1..] == [z, u] && s[1..][1..][1..] == [u] && s[1..][1..][1..][1..] == [];
    assert Unconfirmed([u], c) == [];
    assert Unconfirmed([z, u], c) == [z];
    assert Unconfirmed([y, z, u], c) == [y, z];
  }

  /** The face across an edge shared by exactly f and a triangle g is g. */
  lemma AcrossTwo(m: Mesh, t: EdgeId, f: FaceId, g: FaceId)
    requires t < |m.edges| && f < |m.faces| && g < |m.faces| && f != g
    requires m.edges[t].linkFaces == [f, g] || m.edges[t].linkFaces == [g, f]
    requires |m.faces[g].verts| == 3
    ensures Distinct(m.edges[t].linkFaces)
    ensures Across(m, t, f) == Some(g)
  {
    var lf := m.edges[t].linkFaces;
    assert lf[1..][1..] == [];
    assert Filter(lf, NotFace(f)) == [g];
  }

  /** The facts about the example mesh that its walk depends on: the link
      faces of the edges it visits and the edges and sizes of the faces, ... */
  predicate SampleLinks(m: Mesh) {
    && |m.edges| == 12 && |m.faces| == 5 && m.active == Some(0)
    && m.edges[0].linkFaces == [0, 1] && m.edges[1].linkFaces == [0, 2] && m.edges[4].linkFaces == [1, 3]
    && m.edges[6].linkFaces == [2, 4] && m.edges[7].linkFaces == [2] && m.edges[9].linkFaces == [3, 4]
    && m.faces[0].edges == [0, 1, 2] && |m.faces[0].verts| == 3
    && m.faces[1].edges == [0, 3, 4, 5] && |m.faces[1].verts| == 4
    && m.faces[2].edges == [1, 6, 7] && |m.faces[2].verts| == 3
    && m.faces[3].edges == [4, 8, 9, 10] && |m.faces[3].verts| == 4
    && m.faces[4].edges == [6, 11, 9] && |m.faces[4].verts| == 3
  }

  /** ... which edges are far from which ... */
  predicate SampleFar(m: Mesh) {
    && Far(m, 6, 0) && !Far(m, 7, 0) && !Far(m, 3, 0) && Far(m, 4, 0)
    && !Far(m, 8, 4) && Far(m, 9, 4) && !Far(m, 1, 9) && Far(m, 7, 9)
  }

  /** ... and the user's selection. */
  predicate SampleSelection(m: Mesh) {
    && |m.edges| == 12
    && m.edges[2].selected && m.edges[5].selected && m.edges[10].selected && m.edges[11].selected
    && !m.edges[0].selected && !m.edges[1].selected && !m.edges[3].selected && !m.edges[4].selected
    && !m.edges[6].selected && !m.edges[7].selected && !m.edges[8].selected && !m.edges[9].selected
  }

  lemma SampleHasShape()
    ensures SampleLinks(SampleMesh()) && SampleFar(SampleMesh()) && SampleSelection(SampleMesh())
  { }
  /** Walking across QRS: from PQ, RS is far and SQ is left; from RX, SQ is
      far and QR is left. */
  lemma SampleWalkAcross(m: Mesh)
    requires SampleFar(m)
    ensures WalkAcross(m, 1, 0, [1, 6, 7]) == Ok(Action(Some(1), Some(6), Some(7)))
    ensures WalkAcross(m, 6, 9, [1, 6, 7]) == Ok(Action(Some(6), Some(7), Some(1)))
  {
    WalkAcrossComplete(m, 1, 0, [1, 6, 7], Action(Some(1), Some(6), Some(7)));
    WalkAcrossComplete(m, 6, 9, [1, 6, 7], Action(Some(6), Some(7), Some(1)));
  }

  /** From PQ, PQR has QR as its one unconfirmed edge, and across QR lies
      the triangle QRS: QR is dissolved, RS walked to and SQ selected. */
  lemma SamplePQR(m: Mesh, c: set<EdgeId>)
    requires Valid(m) && SampleLinks(m) && SampleFar(m)
    requires 0 in c && 2 in c && 1 !in c
    ensures Classify(m, c, 0, 0) == Ok(Action(Some(1), Some(6), Some(7)))
  {
    UnconfirmedMiddle(0, 1, 2, c);
    AcrossTwo(m, 1, 0, 2);
    SampleWalkAcross(m);
    ClassifyTriOne(m, c, 0, 0, 1, 2, Action(Some(1), Some(6), Some(7)));
  }

  /** From PQ, the quad PQUY has QU and UY unconfirmed: UY, far from PQ, is
      walked to and QU selected. */
  lemma SamplePQUY(m: Mesh, c: set<EdgeId>)
    requires Valid(m) && SampleLinks(m) && SampleFar(m)
    requires 0 in c && 5 in c && 3 !in c && 4 !in c
    ensures Classify(m, c, 0, 1) == Ok(Action(None, Some(4), Some(3)))
  {
    UnconfirmedMiddleTwo(0, 3, 4, 5, c);
    ClassifyQuad(m, c, 0, 1, 3, 4);
  }

  /** From UY, the quad YURX has UR and RX unconfirmed: RX, far from UY, is
      walked to and UR selected. */
  lemma SampleYURX(m: Mesh, c: set<EdgeId>)
    requires Valid(m) && SampleLinks(m) && SampleFar(m)
    requires 4 in c && 10 in c && 8 !in c && 9 !in c
    ensures Classify(m, c, 4, 3) == Ok(Action(None, Some(9), Some(8)))
  {
    UnconfirmedMiddleTwo(4, 8, 9, 10, c);
    ClassifyQuad(m, c, 4, 3, 8, 9);
  }

  /** From RX, RSX has RS as its one unconfirmed edge, and across RS lies
      QRS again: RS is dissolved, SQ walked to and QR selected. */
  lemma SampleRSX(m: Mesh, c: set<EdgeId>)
    requires Valid(m) && SampleLinks(m) && SampleFar(m)
    requires 9 in c && 11 in c && 6 !in c
    ensures Classify(m, c, 9, 4) == Ok(Action(Some(6), Some(7), Some(1)))
  {
    UnconfirmedFirst(6, 11, 9, c);
    AcrossTwo(m, 6, 4, 2);
    SampleWalkAcross(m);
    ClassifyTriOne(m, c, 9, 4, 6, 2, Action(Some(6), Some(7), Some(1)));
  }

  /** A triangle whose three edges are all confirmed contributes nothing. */
  lemma SampleDone3(m: Mesh, c: set<EdgeId>, cur: EdgeId, f: FaceId, x: EdgeId, y: EdgeId, z: EdgeId)
    requires Valid(m) && cur < |m.edges| && f < |m.faces| && m.faces[f].edges == [x, y, z]
    requires x in c && y in c && z in c
    ensures Classify(m, c, cur, f) == Ok(NoAction)
  {
    AllConfirmed(m.faces[f].edges, c);
    ClassifyDone(m, c, cur, f);
  }

  /** A quad whose four edges are all confirmed contributes nothing. */
  lemma SampleDone4(m: Mesh, c: set<EdgeId>, cur: EdgeId, f: FaceId, x: EdgeId, y: EdgeId, z: EdgeId, u: EdgeId)
    requires Valid(m) && cur < |m.edges| && f < |m.faces| && m.faces[f].edges == [x, y, z, u]
    requires x in c && y in c && z in c && u in c
    ensures Classify(m, c, cur, f) == Ok(NoAction)
  {
    AllConfirmed(m.faces[f].edges, c);
    ClassifyDone(m, c, cur, f);
  }

  /** An edge is confirmed after popping when it was before or was popped. */
  lemma PoppedConfirmed(w: Walk, e: EdgeId)
    requires |w.remaining| > 0
    ensures e in Popped(w).confirmed <==> e in w.confirmed || e == w.remaining[|w.remaining| - 1]
  { }

  /** An edge is confirmed after an action when it was before or the action
      dissolves or selects it. */
  lemma AppliedConfirmed(w: Walk, a: Action, e: EdgeId)
    ensures e in Apply(w, a).confirmed <==> e in w.confirmed || a.dissolve == Some(e) || a.select == Some(e)
  { }

  /** Popping PQ: PQR, then PQUY. */
  lemma SampleAtPQ(m: Mesh, w: Walk)
    requires Valid(m) && SampleLinks(m) && SampleFar(m) && WalkInv(m, w) && w.remaining == [0]
    requires 2 in w.confirmed && 5 in w.confirmed
    requires 1 !in w.confirmed && 3 !in w.confirmed && 4 !in w.confirmed
    ensures var next := Apply(Apply(Popped(w), Action(Some(1), Some(6), Some(7))), Action(None, Some(4), Some(3)));
      WalkInv(m, next) && Run(m, w) == Run(m, next)
  {
    var a := Action(Some(1), Some(6), Some(7));
    PoppedConfirmed(w, 0);
    SamplePQR(m, Popped(w).confirmed);
    AppliedConfirmed(Popped(w), a, 3);
    AppliedConfirmed(Popped(w), a, 4);
    SamplePQUY(m, Apply(Popped(w), a).confirmed);
    StepTwo(m, w, a, Action(None, Some(4), Some(3)));
  }

  /** Popping UY: PQUY is done, then YURX. */
  lemma SampleAtUY(m: Mesh, w: Walk)
    requires Valid(m) && SampleLinks(m) && SampleFar(m) && WalkInv(m, w) && w.remaining == [6, 4]
    requires 0 in w.confirmed && 3 in w.confirmed && 5 in w.confirmed && 10 in w.confirmed
    requires 8 !in w.confirmed && 9 !in w.confirmed
    ensures var next := Apply(Apply(Popped(w), NoAction), Action(None, Some(9), Some(8)));
      WalkInv(m, next) && Run(m, w) == Run(m, next)
  {
    PoppedConfirmed(w, 4);
    SampleDone4(m, Popped(w).confirmed, 4, 1, 0, 3, 4, 5);
    PoppedConfirmed(w, 8);
    PoppedConfirmed(w, 9);
    AppliedConfirmed(Popped(w), NoAction, 4);
    AppliedConfirmed(Popped(w), NoAction, 8);
    AppliedConfirmed(Popped(w), NoAction, 9);
    AppliedConfirmed(Popped(w), NoAction, 10);
    SampleYURX(m, Apply(Popped(w), NoAction).confirmed);
    StepTwo(m, w, NoAction, Action(None, Some(9), Some(8)));
  }

  /** Popping RX: YURX is done, then RSX. */
  lemma SampleAtRX(m: Mesh, w: Walk)
    requires Valid(m) && SampleLinks(m) && SampleFar(m) && WalkInv(m, w) && w.remaining == [6, 9]
    requires 4 in w.confirmed && 8 in w.confirmed && 10 in w.confirmed && 11 in w.confirmed
    requires 6 !in w.confirmed
    ensures var next := Apply(Apply(Popped(w), NoAction), Action(Some(6), Some(7), Some(1)));
      WalkInv(m, next) && Run(m, w) == Run(m, next)
  {
    PoppedConfirmed(w, 9);
    SampleDone4(m, Popped(w).confirmed, 9, 3, 4, 8, 9, 10);
    PoppedConfirmed(w, 6);
    AppliedConfirmed(Popped(w), NoAction, 6);
    AppliedConfirmed(Popped(w), NoAction, 9);
    AppliedConfirmed(Popped(w), NoAction, 11);
    SampleRSX(m, Apply(Popped(w), NoAction).confirmed);
    StepTwo(m, w, NoAction, Action(Some(6), Some(7), Some(1)));
  }

  /** Popping SQ: QRS is done. */
  lemma SampleAtSQ(m: Mesh, w: Walk)
    requires Valid(m) && SampleLinks(m) && WalkInv(m, w) && w.remaining == [6, 7]
    requires 1 in w.confirmed && 6 in w.confirmed
    ensures WalkInv(m, Apply(Popped(w), NoAction)) && Run(m, w) == Run(m, Apply(Popped(w), NoAction))
  {
    PoppedConfirmed(w, 7);
    SampleDone3(m, Popped(w).confirmed, 7, 2, 1, 6, 7);
    StepOne(m, w, NoAction);
  }

  /** Popping RS: QRS and RSX are done, and the walk ends. */
  lemma SampleAtRS(m: Mesh, w: Walk)
    requires Valid(m) && SampleLinks(m) && WalkInv(m, w) && w.remaining == [6]
    requires 1 in w.confirmed && 7 in w.confirmed && 9 in w.confirmed && 11 in w.confirmed
    ensures Run(m, w) == Ok(Apply(Apply(Popped(w), NoAction), NoAction))
  {
    PoppedConfirmed(w, 6);
    SampleDone3(m, Popped(w).confirmed, 6, 2, 1, 6, 7);
    AppliedConfirmed(Popped(w), NoAction, 6);
    AppliedConfirmed(Popped(w), NoAction, 9);
    AppliedConfirmed(Popped(w), NoAction, 11);
    SampleDone3(m, Apply(Popped(w), NoAction).confirmed, 6, 4, 6, 11, 9);
    StepTwo(m, w, NoAction, NoAction);
  }

  /** Which edges are confirmed, dissolved and selected after popping an
      edge and applying the actions of its two link faces. */
  lemma StepSets(w: Walk, a: Action, b: Action, e: EdgeId)
    requires |w.remaining| > 0
    ensures var n := Apply(Apply(Popped(w), a), b);
      && (e in n.confirmed <==> || e in w.confirmed || e == w.remaining[|w.remaining| - 1]
                                || a.dissolve == Some(e) || a.select == Some(e)
                                || b.dissolve == Some(e) || b.select == Some(e))
      && (e in n.dissolve <==> e in w.dissolve || a.dissolve == Some(e) || b.dissolve == Some(e))
      && (e in n.select <==> e in w.select || a.select == Some(e) || b.select == Some(e))
  { }

  /** The same after popping an edge with one link face. */
  lemma StepOneSets(w: Walk, a: Action, e: EdgeId)
    requires |w.remaining| > 0
    ensures var n := Apply(Popped(w), a);
      && (e in n.confirmed <==> || e in w.confirmed || e == w.remaining[|w.remaining| - 1]
                                || a.dissolve == Some(e) || a.select == Some(e))
      && (e in n.dissolve <==> e in w.dissolve || a.dissolve == Some(e))
      && (e in n.select <==> e in w.select || a.select == Some(e))
  { }

  /** The work list after each pop of the example walk. */
  lemma SampleRemaining(w: Walk)
    ensures w.remaining == [0] ==>
      Apply(Apply(Popped(w), Action(Some(1), Some(6), Some(7))), Action(None, Some(4), Some(3))).remaining == [6, 4]
    ensures w.remaining == [6, 4] ==>
      Apply(Apply(Popped(w), NoAction), Action(None, Some(9), Some(8))).remaining == [6, 9]
    ensures w.remaining == [6, 9] ==>
      Apply(Apply(Popped(w), NoAction), Action(Some(6), Some(7), Some(1))).remaining == [6, 7]
    ensures w.remaining == [6, 7] ==> Apply(Popped(w), NoAction).remaining == [6]
  { }

  /** The walk from popping RS on: it ends with QR dissolved and selected. */
  lemma SampleFromRS(m: Mesh, w: Walk)
    requires Valid(m) && SampleLinks(m) && WalkInv(m, w) && w.remaining == [6]
    requires 1 in w.confirmed && 7 in w.confirmed && 9 in w.confirmed && 11 in w.confirmed
    requires 1 in w.dissolve && 1 in w.select
    ensures Run(m, w).Ok? && 1 in Run(m, w).value.dissolve && 1 in Run(m, w).value.select
  {
    SampleAtRS(m, w);
    StepSets(w, NoAction, NoAction, 1);
  }

  /** The walk from popping SQ on. */
  lemma SampleFromSQ(m: Mesh, w: Walk)
    requires Valid(m) && SampleLinks(m) && WalkInv(m, w) && w.remaining == [6, 7]
    requires 1 in w.confirmed && 6 in w.confirmed && 9 in w.confirmed && 11 in w.confirmed
    requires 1 in w.dissolve && 1 in w.select
    ensures Run(m, w).Ok? && 1 in Run(m, w).value.dissolve && 1 in Run(m, w).value.select
  {
    SampleAtSQ(m, w);
    var n := Apply(Popped(w), NoAction);
    StepOneSets(w, NoAction, 1);
    StepOneSets(w, NoAction, 7);
    StepOneSets(w, NoAction, 9);
    StepOneSets(w, NoAction, 11);
    SampleRemaining(w);
    SampleFromRS(m, n);
  }

  /** The walk from popping RX on: QR, dissolved at PQ, is selected here. */
  lemma SampleFromRX(m: Mesh, w: Walk)
    requires Valid(m) && SampleLinks(m) && SampleFar(m) && WalkInv(m, w) && w.remaining == [6, 9]
    requires 1 in w.confirmed && 4 in w.confirmed && 8 in w.confirmed && 10 in w.confirmed && 11 in w.confirmed
    requires 6 !in w.confirmed && 1 in w.dissolve
    ensures Run(m, w).Ok? && 1 in Run(m, w).value.dissolve && 1 in Run(m, w).value.select
  {
    var b := Action(Some(6), Some(7), Some(1));
    SampleAtRX(m, w);
    var n := Apply(Apply(Popped(w), NoAction), b);
    StepSets(w, NoAction, b, 1);
    StepSets(w, NoAction, b, 6);
    StepSets(w, NoAction, b, 9);
    StepSets(w, NoAction, b, 11);
    SampleRemaining(w);
    SampleFromSQ(m, n);
  }

  /** The walk from popping UY on. */
  lemma SampleFromUY(m: Mesh, w: Walk)
    requires Valid(m) && SampleLinks(m) && SampleFar(m) && WalkInv(m, w) && w.remaining == [6, 4]
    requires 0 in w.confirmed && 1 in w.confirmed && 3 in w.confirmed && 5 in w.confirmed
    requires 10 in w.confirmed && 11 in w.confirmed
    requires 6 !in w.confirmed && 8 !in w.confirmed && 9 !in w.confirmed && 1 in w.dissolve
    ensures Run(m, w).Ok? && 1 in Run(m, w).value.dissolve && 1 in Run(m, w).value.select
  {
    var b := Action(None, Some(9), Some(8));
    SampleAtUY(m, w);
    var n := Apply(Apply(Popped(w), NoAction), b);
    StepSets(w, NoAction, b, 1);
    StepSets(w, NoAction, b, 4);
    StepSets(w, NoAction, b, 6);
    StepSets(w, NoAction, b, 8);
    StepSets(w, NoAction, b, 10);
    StepSets(w, NoAction, b, 11);
    SampleRemaining(w);
    SampleFromRX(m, n);
  }

  /** The walk from popping PQ on: QR is dissolved here. */
  lemma SampleFromPQ(m: Mesh, w: Walk)
    requires Valid(m) && SampleLinks(m) && SampleFar(m) && WalkInv(m, w) && w.remaining == [0]
    requires 2 in w.confirmed && 5 in w.confirmed && 10 in w.confirmed && 11 in w.confirmed
    requires 1 !in w.confirmed && 3 !in w.confirmed && 4 !in w.confirmed
    requires 6 !in w.confirmed && 8 !in w.confirmed && 9 !in w.confirmed
    ensures Run(m, w).Ok? && 1 in Run(m, w).value.dissolve && 1 in Run(m, w).value.select
  {
    var a := Action(Some(1), Some(6), Some(7));
    var b := Action(None, Some(4), Some(3));
    SampleAtPQ(m, w);
    var n := Apply(Apply(Popped(w), a), b);
    StepSets(w, a, b, 0);
    StepSets(w, a, b, 1);
    StepSets(w, a, b, 3);
    StepSets(w, a, b, 5);
    StepSets(w, a, b, 6);
    StepSets(w, a, b, 8);
    StepSets(w, a, b, 9);
    StepSets(w, a, b, 10);
    StepSets(w, a, b, 11);
    SampleRemaining(w);
    SampleFromUY(m, n);
  }

  /** The user's selection of the example is PR, YP, XY and SX. */
  lemma SampleInitial(m: Mesh)
    requires SampleSelection(m)
    ensures var c := InitialSelection(m);
      && 2 in c && 5 in c && 10 in c && 11 in c
      && 1 !in c && 3 !in c && 4 !in c && 6 !in c && 8 !in c && 9 !in c
  { }

  /** The walk starts from the user's selection with one edge to visit. */
  lemma StartInv(m: Mesh, e: EdgeId)
    requires Valid(m) && e < |m.edges|
    ensures WalkInv(m, Walk(InitialSelection(m), {}, {}, [e]))
  { }

  /** The whole walk from PQ over a mesh of this shape. */
  lemma SampleWalk(m: Mesh)
    requires Valid(m) && SampleLinks(m) && SampleFar(m) && SampleSelection(m)
    requires WalkInv(m, Walk(InitialSelection(m), {}, {}, [0]))
    ensures var r := Run(m, Walk(InitialSelection(m), {}, {}, [0]));
      r.Ok? && 1 in r.value.dissolve && 1 in r.value.select
  {
    SampleInitial(m);
    SampleFromPQ(m, Walk(InitialSelection(m), {}, {}, [0]));
  }

  /** When the walk from the active edge ends with e both to dissolve and to
      select, so does the operator. */
  lemma FinishedWith(m: Mesh, score: EdgeId -> real, e: EdgeId)
    requires Valid(m) && m.active.Some?
    requires var r := Run(m, Walk(InitialSelection(m), {}, {}, [m.active.value]));
      r.Ok? && e in r.value.dissolve && e in r.value.select
    ensures var out := Solve(m, score);
      out.Finished? && e in out.dissolve && e in out.select
  { }

  /** A real invocation whose two sets overlap: on the example mesh, with PQ
      active, the walk dissolves QR at PQR and later selects it across RSX. */
  lemma DissolvedThenSelected(score: EdgeId -> real)
    ensures Valid(SampleMesh())
    ensures var out := Solve(SampleMesh(), score);
      out.Finished? && 1 in out.dissolve && 1 in out.select
  {
    SampleValid();
    SampleHasShape();
    StartInv(SampleMesh(), 0);
    SampleWalk(SampleMesh());
    FinishedWith(SampleMesh(), score, 1);
  }
}
