/**
 * Elevation-network adjustment. Bench marks are vertices and levelling runs are directed
 * edges. Free bench marks get dense column indices. A breadth-first search from the control
 * points gives each free mark a starting elevation and writes one observation row of the
 * design matrix A, the weight matrix P and the misclosure vector L per edge it examines.
 * The normal equations are then solved, and the corrections are written back into the
 * marks and the runs.
 */
module ElevNet {
  import opened Wrappers
  import opened Linalg

  /** Elev_Net_Vertex_Ds: a bench mark, its elevation, whether it is a control point, and whether its elevation is set. */
  datatype VertexDs = VertexDs(name: string, elev: real, isControl: bool, isInit: bool)

  /** Elev_Net_Edge_Ds: a levelling run with its measured height difference and its length. */
  datatype EdgeDs = EdgeDs(name: string, diff: real, len: real)

  /** An edge of the arena: indices of its source and target vertices and its record. */
  datatype Edge = Edge(source: nat, target: nat, ds: EdgeDs)

  /** A snapshot of a network. */
  datatype NetValue = NetValue(vertices: seq<VertexDs>, edges: seq<Edge>)

  /** A vertex made from a name, an elevation and the control flag: is_init takes the value of is_control. */
  function MakeVertex(name: string, elev: real, isControl: bool): (v: VertexDs)
    ensures v.name == name && v.elev == elev && v.isControl == isControl
    ensures v.isInit <==> v.isControl
  {
    VertexDs(name, elev, isControl, isControl)
  }

  /** Every edge joins two vertices of the network. */
  predicate Endpoints(vs: seq<VertexDs>, es: seq<Edge>)
  {
    forall e :: 0 <= e < |es| ==> es[e].source < |vs| && es[e].target < |vs|
  }

  /** Every control point starts with its elevation set, as MakeVertex guarantees. */
  predicate ControlsInit(vs: seq<VertexDs>)
  {
    forall i :: 0 <= i < |vs| && vs[i].isControl ==> vs[i].isInit
  }

  /** Vertices made by MakeVertex satisfy ControlsInit. */
  lemma MadeVerticesControlsInit(vs: seq<VertexDs>)
    requires forall i :: 0 <= i < |vs| ==> vs[i] == MakeVertex(vs[i].name, vs[i].elev, vs[i].isControl)
    ensures ControlsInit(vs)
  {
    forall i | 0 <= i < |vs| && vs[i].isControl
      ensures vs[i].isInit
    {
      assert vs[i] == MakeVertex(vs[i].name, vs[i].elev, vs[i].isControl);
    }
  }

  /** The out-edges of u among the first k edges, in insertion order. */
  function OutEdgesBefore(es: seq<Edge>, u: nat, k: nat): (outs: seq<nat>)
    requires k <= |es|
    ensures forall q :: 0 <= q < |outs| ==> outs[q] < k && es[outs[q]].source == u
    ensures forall e :: 0 <= e < k && es[e].source == u ==> e in outs
    ensures forall q, q' :: 0 <= q < q' < |outs| ==> outs[q] < outs[q']
  {
    if k == 0 then []
    else OutEdgesBefore(es, u, k - 1) + (if es[k - 1].source == u then [k - 1] else [])
  }

  /** The out-edges of u in insertion order, as an adjacency list with vector storage keeps them. */
  function OutEdges(es: seq<Edge>, u: nat): (outs: seq<nat>)
    ensures forall q :: 0 <= q < |outs| ==> outs[q] < |es| && es[outs[q]].source == u
    ensures forall e :: 0 <= e < |es| && es[e].source == u ==> e in outs
    ensures forall q, q' :: 0 <= q < q' < |outs| ==> outs[q] < outs[q']
  {
    OutEdgesBefore(es, u, |es|)
  }

  // ---------------------------------------------------------------------------
  // Column indices of the free vertices

  /** The number of free (non-control) vertices among the first i. */
  function FreeBefore(vs: seq<VertexDs>, i: nat): (c: nat)
    requires i <= |vs|
    ensures c <= i
  {
    if i == 0 then 0 else FreeBefore(vs, i - 1) + (if vs[i - 1].isControl then 0 else 1)
  }

  /** t: the number of free vertices, the unknowns of the adjustment. */
  function FreeCount(vs: seq<VertexDs>): nat
  {
    FreeBefore(vs, |vs|)
  }

  /** The control vertices among the first i, in vertex order. */
  function SeedsBefore(vs: seq<VertexDs>, i: nat): seq<nat>
    requires i <= |vs|
  {
    if i == 0 then []
    else SeedsBefore(vs, i - 1) + (if vs[i - 1].isControl then [i - 1] else [])
  }

  /**
   * The seeds are exactly the control vertices, each once, in increasing order, and
   * together with the free vertices they account for every vertex.
   */
  lemma {:induction false} SeedsAreControls(vs: seq<VertexDs>, i: nat)
    requires i <= |vs|
    ensures var seeds := SeedsBefore(vs, i);
            |seeds| + FreeBefore(vs, i) == i &&
            (forall q :: 0 <= q < |seeds| ==> seeds[q] < i && vs[seeds[q]].isControl) &&
            (forall s :: 0 <= s < i && vs[s].isControl ==> s in seeds) &&
            (forall q, q' :: 0 <= q < q' < |seeds| ==> seeds[q] < seeds[q'])
  {
    if i > 0 {
      SeedsAreControls(vs, i - 1);
    }
  }

  /** The search seeds: every control vertex, once each, in vertex order. */
  function Seeds(vs: seq<VertexDs>): seq<nat>
  {
    SeedsBefore(vs, |vs|)
  }

  /** Free vertices are numbered 0, 1, ... in vertex order, so their columns are distinct and fill 0..t-1. */
  lemma {:induction false} ColumnsDense(vs: seq<VertexDs>, i: nat, j: nat)
    requires i < j < |vs| && !vs[i].isControl
    ensures FreeBefore(vs, i) < FreeBefore(vs, j)
    decreases j
  {
    if j - 1 > i {
      ColumnsDense(vs, i, j - 1);
    }
  }

  /** The column of a free vertex is below t. */
  lemma {:induction false} ColumnBelowCount(vs: seq<VertexDs>, i: nat, k: nat)
    requires i < k <= |vs| && !vs[i].isControl
    ensures FreeBefore(vs, i) < FreeBefore(vs, k)
    decreases k
  {
    if k - 1 > i {
      ColumnBelowCount(vs, i, k - 1);
    }
  }

  /** Every column below t belongs to some free vertex. */
  lemma {:induction false} ColumnsCovered(vs: seq<VertexDs>, k: nat, c: nat)
    requires k <= |vs| && c < FreeBefore(vs, k)
    ensures exists i :: 0 <= i < k && !vs[i].isControl && FreeBefore(vs, i) == c
  {
    if c < FreeBefore(vs, k - 1) {
      ColumnsCovered(vs, k - 1, c);
    } else {
      assert !vs[k - 1].isControl && FreeBefore(vs, k - 1) == c;
    }
  }

  /** The free vertices among the first i. */
  function FreeSet(vs: seq<VertexDs>, i: nat): (free: set<nat>)
    requires i <= |vs|
    ensures forall k: nat :: k in free <==> k < i && !vs[k].isControl
  {
    if i == 0 then {} else FreeSet(vs, i - 1) + (if vs[i - 1].isControl then {} else {i - 1})
  }

  /** The column of each free vertex: the number of free vertices before it. */
  function Columns(vs: seq<VertexDs>): map<nat, nat>
  {
    map i: nat | i < |vs| && !vs[i].isControl :: FreeBefore(vs, i)
  }

  /** Distinct free vertices get distinct columns, each below t. */
  lemma ColumnsInjective(vs: seq<VertexDs>)
    ensures forall i, j :: i in Columns(vs) && j in Columns(vs) && i != j ==> Columns(vs)[i] != Columns(vs)[j]
    ensures forall i :: i in Columns(vs) ==> Columns(vs)[i] < FreeCount(vs)
  {
    forall i, j | i in Columns(vs) && j in Columns(vs) && i < j
      ensures Columns(vs)[i] < Columns(vs)[j]
    {
      ColumnsDense(vs, i, j);
    }
    forall i | i in Columns(vs)
      ensures Columns(vs)[i] < FreeCount(vs)
    {
      ColumnBelowCount(vs, i, |vs|);
    }
  }

  /**
   * The index-building loop of netAdjust: control vertices become the seeds; every other
   * vertex gets the next column, and t counts them.
   */
  method IndexVertices(vs: seq<VertexDs>) returns (columns: map<nat, nat>, seeds: seq<nat>, t: nat)
    ensures t == FreeCount(vs) && seeds == Seeds(vs) && columns == Columns(vs)
    ensures forall i: nat :: i in columns <==> i < |vs| && !vs[i].isControl
    ensures forall i :: i in columns ==> columns[i] == FreeBefore(vs, i) < t
  {
    columns, seeds, t := map[], [], 0;
    var vi := 0;
    for i := 0 to |vs|
      invariant t == vi == FreeBefore(vs, i) && seeds == SeedsBefore(vs, i)
      invariant columns.Keys == FreeSet(vs, i)
      invariant forall k :: k in columns ==> columns[k] == FreeBefore(vs, k) < t
    {
      if vs[i].isControl {
        assert SeedsBefore(vs, i + 1) == SeedsBefore(vs, i) + [i];
        seeds := seeds + [i];
        continue;
      }
      assert SeedsBefore(vs, i + 1) == SeedsBefore(vs, i);
      t := t + 1;
      columns := columns[i := vi];
      vi := vi + 1;
    }
    assert columns.Keys == Columns(vs).Keys;
  }

  // ---------------------------------------------------------------------------
  // One observation row

  /** An observation's weight: the unit weight over the run length. */
  function Weight(unitWeight: real, len: real): real
    requires len != 0.0
  {
    unitWeight / len
  }

  /** Exactly the free vertices have a column. */
  predicate Indexed(vs: seq<VertexDs>, columns: map<nat, nat>)
  {
    forall i: nat :: i < |vs| ==> (i in columns <==> !vs[i].isControl)
  }

  /**
   * examine_edge's first step: when the source has its elevation and the target has not,
   * the target's elevation becomes the source's plus the measured difference.
   */
  function InitTarget(vs: seq<VertexDs>, e: Edge): (r: seq<VertexDs>)
    requires e.source < |vs| && e.target < |vs|
    ensures |r| == |vs|
  {
    if vs[e.source].isInit && !vs[e.target].isInit
    then vs[e.target := vs[e.target].(isInit := true, elev := vs[e.source].elev + e.ds.diff)]
    else vs
  }

  /**
   * Initialisation changes at most the target, never a vertex that was already set, and
   * never a name or control flag; afterwards an initialised source has an initialised target.
   */
  lemma InitTargetKeeps(vs: seq<VertexDs>, e: Edge)
    requires e.source < |vs| && e.target < |vs|
    ensures var r := InitTarget(vs, e);
            |r| == |vs| &&
            (forall i :: 0 <= i < |vs| && (vs[i].isInit || i != e.target) ==> r[i] == vs[i]) &&
            (forall i :: 0 <= i < |vs| ==> r[i].name == vs[i].name && r[i].isControl == vs[i].isControl) &&
            (vs[e.source].isInit ==> r[e.target].isInit && r[e.source] == vs[e.source])
  {
  }

  /** Entry j of an observation row of A after the edge is examined: +1 at a free target's column, -1 at a free source's. */
  function DesignEntry(prev: real, e: Edge, columns: map<nat, nat>, j: nat): real
  {
    if e.target in columns && j == columns[e.target] then 1.0
    else if e.source in columns && j == columns[e.source] then -1.0
    else prev
  }

  /** The misclosure entry, in millimetres: the measured difference plus the source elevation less the target's. */
  function MisclosureEntry(prev: real, e: Edge, vs: seq<VertexDs>): real
    requires e.source < |vs| && e.target < |vs|
  {
    (prev + e.ds.diff + vs[e.source].elev - vs[e.target].elev) * 1000.0
  }

  /** The run that gives its target an elevation closes exactly: its misclosure is zero. */
  lemma InitialisingEdgeCloses(vs: seq<VertexDs>, e: Edge)
    requires e.source < |vs| && e.target < |vs| && e.source != e.target
    requires vs[e.source].isInit && !vs[e.target].isInit
    ensures MisclosureEntry(0.0, e, InitTarget(vs, e)) == 0.0
  {
  }

  // ---------------------------------------------------------------------------
  // The network, the index manager, the equations and the visitor

  /** The network: vertex and edge records held in an adjacency-list arena. */
  class Net {
    var vertices: seq<VertexDs>
    var edges: seq<Edge>

    constructor (vertices: seq<VertexDs>, edges: seq<Edge>)
      ensures this.vertices == vertices && this.edges == edges
    {
      this.vertices := vertices;
      this.edges := edges;
    }

    function Value(): NetValue
      reads this
    {
      NetValue(vertices, edges)
    }
  }

  /** Net_Indices_Manager: the column of each free vertex and the row of each examined edge. */
  class Indices {
    var column: map<nat, nat>
    var row: map<nat, nat>

    constructor ()
      ensures column == map[] && row == map[]
    {
      column := map[];
      row := map[];
    }
  }

  /** The matrices netAdjust owns and the visitor fills by reference: the design matrix A, the weights P and the misclosures L. */
  class Equations {
    var a: Matrix
    var p: Matrix
    var l: Matrix

    /** Matrix::Zero for A (n x t), P (n x n) and L (n x 1). */
    constructor (n: nat, t: nat)
      ensures a == Zero(n, t) && p == Zero(n, n) && l == Zero(n, 1)
    {
      a := Zero(n, t);
      p := Zero(n, n);
      l := Zero(n, 1);
    }
  }

  /** A has one row, P one row and column, and L one entry per observation. */
  predicate Fits(n: nat, a: Matrix, p: Matrix, l: Matrix)
  {
    Valid(a) && a.rows == n && IsShape(p, n, n) && IsShape(l, n, 1)
  }

  /** Every run has a nonzero length, so that its weight is defined. */
  predicate Measured(es: seq<Edge>)
  {
    forall e :: 0 <= e < |es| ==> es[e].ds.len != 0.0
  }

  /** Every column index fits A. */
  predicate ColumnsFit(columns: map<nat, nat>, a: Matrix)
  {
    forall x :: x in columns ==> columns[x] < a.cols
  }

  /** The matrices fit the network: A has a row per edge and a column for every free vertex, P is square, L a column; every run has a length. */
  predicate Prepared(vs: seq<VertexDs>, es: seq<Edge>, columns: map<nat, nat>, a: Matrix, p: Matrix, l: Matrix)
  {
    Fits(|es|, a, p, l) && Endpoints(vs, es) && Indexed(vs, columns) && ColumnsFit(columns, a) && Measured(es)
  }

  /** Row i of A after the edge is examined: -1 at a free source's column, then +1 at a free target's. */
  function DesignRow(a: Matrix, i: nat, e: Edge, columns: map<nat, nat>): (r: Matrix)
    requires Valid(a) && i < a.rows && ColumnsFit(columns, a)
    ensures IsShape(r, a.rows, a.cols)
  {
    var a' := if e.source in columns then Assign(a, i, columns[e.source], -1.0) else a;
    if e.target in columns then Assign(a', i, columns[e.target], 1.0) else a'
  }

  /** Row i of A gets the design entries of e; every other row is unchanged. */
  lemma DesignRowEntries(a: Matrix, i: nat, e: Edge, columns: map<nat, nat>)
    requires Valid(a) && i < a.rows && ColumnsFit(columns, a)
    ensures var r := DesignRow(a, i, e, columns);
            forall i', j :: 0 <= i' < a.rows && 0 <= j < a.cols ==>
              r.data[i'][j] == if i' == i then DesignEntry(a.data[i'][j], e, columns, j) else a.data[i'][j]
  {
    var a' := if e.source in columns then Assign(a, i, columns[e.source], -1.0) else a;
    if e.source in columns {
      AssignEntries(a, i, columns[e.source], -1.0);
    }
    if e.target in columns {
      AssignEntries(a', i, columns[e.target], 1.0);
    }
  }

  /**
   * Elev_Net_Visitor: holds references to the vertex records, the index manager and the
   * three matrices, plus its own flag and row counter.
   */
  class Visitor {
    var selfLoopDetected: bool
    var ei: nat
    const net: Net
    const nim: Indices
    const eq: Equations
    const unitWeight: real

    constructor (net: Net, nim: Indices, eq: Equations, unitWeight: real)
      ensures this.net == net && this.nim == nim && this.eq == eq && this.unitWeight == unitWeight
      ensures !selfLoopDetected && ei == 0
    {
      this.net := net;
      this.nim := nim;
      this.eq := eq;
      this.unitWeight := unitWeight;
      selfLoopDetected := false;
      ei := 0;
    }

    /** A copy, as passing the visitor by value makes: the references are shared, the flag and counter are not. */
    method Copy() returns (c: Visitor)
      ensures fresh(c) && c.net == net && c.nim == nim && c.eq == eq && c.unitWeight == unitWeight
      ensures c.selfLoopDetected == selfLoopDetected && c.ei == ei
    {
      c := new Visitor(net, nim, eq, unitWeight);
      c.selfLoopDetected := selfLoopDetected;
      c.ei := ei;
    }

    /** isValid: no non-tree edge has been seen by this object. */
    function IsValid(): bool
      reads this
    {
      !selfLoopDetected
    }

    /** The visitor's matrices and indices fit its network. */
    ghost predicate Ready()
      reads this, net, nim, eq
    {
      Prepared(net.vertices, net.edges, nim.column, eq.a, eq.p, eq.l)
    }

    /** non_tree_edge: raises the flag, whatever the edge. */
    method NonTreeEdge(e: nat)
      modifies this`selfLoopDetected
      ensures selfLoopDetected
    {
      selfLoopDetected := true;
    }

    /** The initialisation step of examine_edge. */
    method InitialiseTarget(edge: Edge)
      requires Ready() && edge in net.edges
      modifies net`vertices
      ensures Ready() && net.vertices == InitTarget(old(net.vertices), edge)
    {
      InitTargetKeeps(net.vertices, edge);
      var u, v := edge.source, edge.target;
      if net.vertices[u].isInit && !net.vertices[v].isInit {
        net.vertices := net.vertices[v := net.vertices[v].(isInit := true, elev := net.vertices[u].elev + edge.ds.diff)];
      }
    }

    /** P(ei, ei) = unit weight / length, and the edge is given row ei. */
    method RecordWeight(e: nat)
      requires Ready() && e < |net.edges| && ei < |net.edges|
      modifies nim`row, eq`p
      ensures Ready() && nim.row == old(nim.row)[e := ei]
      ensures eq.p == Assign(old(eq.p), ei, ei, Weight(unitWeight, net.edges[e].ds.len))
    {
      eq.p := Assign(eq.p, ei, ei, unitWeight / net.edges[e].ds.len);
      nim.row := nim.row[e := ei];
    }

    /** L(ei) accumulates the difference and the source elevation, less the target elevation, in millimetres. */
    method RecordMisclosure(edge: Edge)
      requires Ready() && edge in net.edges && ei < |net.edges|
      modifies eq`l
      ensures Ready() && eq.l == Assign(old(eq.l), ei, 0, MisclosureEntry(old(eq.l).data[ei][0], edge, net.vertices))
    {
      var up, vp := net.vertices[edge.source], net.vertices[edge.target];
      ghost var l0 := eq.l;
      eq.l := Assign(eq.l, ei, 0, eq.l.data[ei][0] + edge.ds.diff);
      eq.l := Assign(eq.l, ei, 0, eq.l.data[ei][0] + up.elev);
      eq.l := Assign(eq.l, ei, 0, eq.l.data[ei][0] - vp.elev);
      eq.l := Assign(eq.l, ei, 0, eq.l.data[ei][0] * 1000.0);
      AssignTwice(l0, ei, 0, l0.data[ei][0] + edge.ds.diff, l0.data[ei][0] + edge.ds.diff + up.elev);
      AssignTwice(l0, ei, 0, l0.data[ei][0] + edge.ds.diff + up.elev, l0.data[ei][0] + edge.ds.diff + up.elev - vp.elev);
      AssignTwice(l0, ei, 0, l0.data[ei][0] + edge.ds.diff + up.elev - vp.elev, MisclosureEntry(l0.data[ei][0], edge, net.vertices));
    }

    /** Row ei of A gets -1 at a free source's column and then +1 at a free target's column. */
    method RecordDesign(edge: Edge)
      requires Ready() && edge in net.edges && ei < |net.edges|
      modifies eq`a
      ensures Ready() && eq.a == DesignRow(old(eq.a), ei, edge, nim.column)
    {
      var u, v := edge.source, edge.target;
      if !net.vertices[u].isControl {
        eq.a := Assign(eq.a, ei, nim.column[u], -1.0);
      }
      if !net.vertices[v].isControl {
        eq.a := Assign(eq.a, ei, nim.column[v], 1.0);
      }
    }

    /**
     * examine_edge: initialises the target, then fills row ei: P(ei, ei), the row index of
     * the edge, L(ei) and the entries of A for the free ends, and moves to the next row.
     * L's steps are gathered in one call; A's entries do not depend on them.
     */
    method ExamineEdge(e: nat)
      requires Ready() && e < |net.edges| && ei < |net.edges|
      modifies this`ei, net`vertices, nim`row, eq
      ensures Ready() && ei == old(ei) + 1
      ensures net.vertices == InitTarget(old(net.vertices), net.edges[e])
      ensures nim.row == old(nim.row)[e := old(ei)]
      ensures eq.p == Assign(old(eq.p), old(ei), old(ei), Weight(unitWeight, net.edges[e].ds.len))
      ensures eq.a == DesignRow(old(eq.a), old(ei), net.edges[e], nim.column)
      ensures eq.l == Assign(old(eq.l), old(ei), 0, MisclosureEntry(old(eq.l).data[old(ei)][0], net.edges[e], net.vertices))
    {
      var edge := net.edges[e];
      InitialiseTarget(edge);
      RecordWeight(e);
      RecordMisclosure(edge);
      RecordDesign(edge);
      ei := ei + 1;
    }
  }

  // ---------------------------------------------------------------------------
  // Breadth-first search from the control points

  datatype Color = White | Gray | Black

  /** No two entries of s are equal. */
  predicate Distinct(s: seq<nat>)
  {
    forall q, q' :: 0 <= q < q' < |s| ==> s[q] != s[q']
  }

  /** A duplicate-free sequence of numbers below n that misses x < n is shorter than n. */
  lemma DistinctBelow(s: seq<nat>, n: nat, x: nat)
    requires Distinct(s) && x < n && x !in s
    requires forall q :: 0 <= q < |s| ==> s[q] < n
    ensures |s| < n
  {
    var elems := set q | 0 <= q < |s| :: s[q];
    DistinctCard(s);
    SubsetRangeCard(elems + {x}, n);
  }

  lemma {:induction false} DistinctCard(s: seq<nat>)
    requires Distinct(s)
    ensures |set q | 0 <= q < |s| :: s[q]| == |s|
  {
    if |s| > 0 {
      var s' := s[..|s| - 1];
      DistinctCard(s');
      assert (set q | 0 <= q < |s| :: s[q]) == (set q | 0 <= q < |s'| :: s'[q]) + {s[|s| - 1]};
    }
  }

  lemma {:induction false} SubsetRangeCard(s: set<nat>, n: nat)
    requires forall x :: x in s ==> x < n
    ensures |s| <= n
  {
    if n == 0 {
      assert s == {};
    } else {
      SubsetRangeCard(s - {n - 1}, n - 1);
    }
  }

  /**
   * The colouring and the queue: reached vertices are the non-white ones; the grey ones are
   * the queued ones plus the vertex being expanded; the queue holds no vertex twice.
   */
  ghost predicate Frontier(c: seq<Color>, n: nat, queue: seq<nat>, reached: set<nat>, current: int)
  {
    |c| == n &&
    (forall v :: v in reached ==> v < n) &&
    (forall v :: 0 <= v < n ==> (c[v] != White <==> v in reached)) &&
    (forall v :: 0 <= v < n ==> (c[v] == Gray <==> v in queue || v == current)) &&
    (forall q :: 0 <= q < |queue| ==> queue[q] < n && queue[q] != current) &&
    Distinct(queue)
  }

  /**
   * What the visitor has written for the examined edges, in order: the q-th owns row q; P is
   * zero except for the weights on the used diagonal; A's used rows are the design rows and
   * the unused ones zero; L's unused rows are zero.
   */
  ghost predicate RowsWritten(es: seq<Edge>, columns: map<nat, nat>, unitWeight: real, row: map<nat, nat>,
                              a: Matrix, p: Matrix, l: Matrix, examined: seq<nat>)
    requires Fits(|es|, a, p, l) && Measured(es)
  {
    |examined| <= |es| && Distinct(examined) &&
    (forall q :: 0 <= q < |examined| ==> examined[q] < |es|) &&
    (forall e :: e in row <==> e in examined) &&
    (forall q :: 0 <= q < |examined| ==> row[examined[q]] == q) &&
    (forall i, j :: 0 <= i < |es| && 0 <= j < |es| ==>
       p.data[i][j] == if i == j && i < |examined| then Weight(unitWeight, es[examined[i]].ds.len) else 0.0) &&
    (forall i, j :: 0 <= i < |es| && 0 <= j < a.cols ==>
       a.data[i][j] == if i < |examined| then DesignEntry(0.0, es[examined[i]], columns, j) else 0.0) &&
    (forall i :: |examined| <= i < |es| ==> l.data[i][0] == 0.0)
  }

  /** The used rows of L are the misclosures of their edges under the elevations vs. */
  ghost predicate Misclosed(l: Matrix, es: seq<Edge>, vs: seq<VertexDs>, examined: seq<nat>)
    requires IsShape(l, |es|, 1) && Endpoints(vs, es) && |examined| <= |es|
    requires forall q :: 0 <= q < |examined| ==> examined[q] < |es|
  {
    forall i :: 0 <= i < |examined| ==> l.data[i][0] == MisclosureEntry(0.0, es[examined[i]], vs)
  }

  /**
   * How the vertices differ from vs0: a vertex outside initBy is untouched; a vertex in it
   * was unset, and the examined edge initBy[v] into it gave it its source's elevation plus
   * the difference.
   */
  ghost predicate Initialised(vs0: seq<VertexDs>, vs: seq<VertexDs>, es: seq<Edge>, examined: seq<nat>, initBy: map<nat, nat>)
  {
    |vs| == |vs0| && Endpoints(vs, es) &&
    (forall v :: v in initBy ==> v < |vs|) &&
    (forall v :: 0 <= v < |vs| && v !in initBy ==> vs[v] == vs0[v]) &&
    (forall v :: v in initBy ==>
       (initBy[v] < |es| && initBy[v] in examined && es[initBy[v]].target == v && !vs0[v].isInit &&
        vs[es[initBy[v]].source].isInit &&
        vs[v] == vs0[v].(isInit := true, elev := vs[es[initBy[v]].source].elev + es[initBy[v]].ds.diff)))
  }

  /**
   * Examined edges join reached vertices; when the seeds start initialised, every reached
   * vertex is initialised.
   */
  ghost predicate Reach(vs: seq<VertexDs>, es: seq<Edge>, examined: seq<nat>, reached: set<nat>, seedsInit: bool)
    requires Endpoints(vs, es) && forall q :: 0 <= q < |examined| ==> examined[q] < |es|
  {
    (forall q :: 0 <= q < |examined| ==> es[examined[q]].source in reached && es[examined[q]].target in reached) &&
    (seedsInit ==> forall v :: v in reached && v < |vs| ==> vs[v].isInit)
  }

  /**
   * The search's history: the examined edges in row order, the reached vertices, the edge
   * that initialised each vertex, and the numbers of tree and non-tree edges.
   */
  datatype Trace = Trace(examined: seq<nat>, reached: set<nat>, initBy: map<nat, nat>, tree: nat, nonTree: nat)

  /** Every seed starts with its elevation set. */
  ghost predicate SeedsInit(vs0: seq<VertexDs>, seeds: seq<nat>)
  {
    forall q :: 0 <= q < |seeds| && seeds[q] < |vs0| ==> vs0[seeds[q]].isInit
  }

  /** The search's view of the visitor and the colour map at one moment. */
  datatype Snap = Snap(vertices: seq<VertexDs>, edges: seq<Edge>, columns: map<nat, nat>, row: map<nat, nat>,
                       a: Matrix, p: Matrix, l: Matrix, ei: nat, flag: bool, unitWeight: real, color: seq<Color>)

  /** The visitor's state, with no colours. */
  ghost function VisitorSnap(vis: Visitor): Snap
    reads vis, vis.net, vis.nim, vis.eq
  {
    Snap(vis.net.vertices, vis.net.edges, vis.nim.column, vis.nim.row, vis.eq.a, vis.eq.p, vis.eq.l,
         vis.ei, vis.selfLoopDetected, vis.unitWeight, [])
  }

  ghost function SnapOf(vis: Visitor, color: array<Color>): Snap
    reads vis, vis.net, vis.nim, vis.eq, color
  {
    VisitorSnap(vis).(color := color[..])
  }

  /** The matrices part of the invariant: the rows written for the examined edges and, under initialised seeds, their misclosures. */
  ghost predicate RowsInv(es: seq<Edge>, columns: map<nat, nat>, unitWeight: real, row: map<nat, nat>,
                          a: Matrix, p: Matrix, l: Matrix, ei: nat, vs: seq<VertexDs>, examined: seq<nat>, seedsInit: bool)
  {
    Prepared(vs, es, columns, a, p, l) && ei == |examined| && RowsWritten(es, columns, unitWeight, row, a, p, l, examined) &&
    (seedsInit ==> Misclosed(l, es, vs, examined))
  }

  /** The vertices part of the invariant: which vertices were initialised, and by which edge; the examined edges join reached vertices. */
  ghost predicate VerticesInv(vs0: seq<VertexDs>, vs: seq<VertexDs>, es: seq<Edge>, examined: seq<nat>, initBy: map<nat, nat>,
                              reached: set<nat>, seedsInit: bool)
  {
    Initialised(vs0, vs, es, examined, initBy) &&
    (forall q :: 0 <= q < |examined| ==> examined[q] < |es|) &&
    Reach(vs, es, examined, reached, seedsInit)
  }

  /** The search part of the invariant: the frontier, the seeds reached, and the tree and non-tree edge counts behind the flag. */
  ghost predicate FrontierInv(c: seq<Color>, flag: bool, queue: seq<nat>, current: int, tr: Trace, n: nat, seeds: seq<nat>)
  {
    Frontier(c, n, queue, tr.reached, current) &&
    (current >= 0 ==> current in tr.reached) &&
    (forall q :: 0 <= q < |seeds| ==> seeds[q] in tr.reached) &&
    |tr.reached| == |seeds| + tr.tree && |tr.examined| == tr.tree + tr.nonTree &&
    (flag <==> tr.nonTree > 0)
  }

  /**
   * The invariant of the search from the vertices vs0, the edges es0 and the seeds, with
   * `current` the vertex being expanded (or -1).
   */
  ghost predicate Inv(s: Snap, queue: seq<nat>, current: int, tr: Trace, vs0: seq<VertexDs>, es0: seq<Edge>, seeds: seq<nat>)
  {
    s.edges == es0 &&
    RowsInv(es0, s.columns, s.unitWeight, s.row, s.a, s.p, s.l, s.ei, s.vertices, tr.examined, SeedsInit(vs0, seeds)) &&
    VerticesInv(vs0, s.vertices, es0, tr.examined, tr.initBy, tr.reached, SeedsInit(vs0, seeds)) &&
    FrontierInv(s.color, s.flag, queue, current, tr, |vs0|, seeds) &&
    AllReachable(es0, seeds, tr.reached)
  }

  /** An edge has been examined exactly when its source is black or it is among `done`. */
  ghost predicate Closed(c: seq<Color>, es: seq<Edge>, examined: seq<nat>, done: seq<nat>)
    requires forall e :: 0 <= e < |es| ==> es[e].source < |c|
  {
    forall e :: 0 <= e < |es| ==> (e in examined <==> c[es[e].source] == Black || e in done)
  }

  /** Greying a white vertex and queueing it keeps the frontier and reaches one more vertex. */
  lemma FrontierGrows(c: seq<Color>, n: nat, queue: seq<nat>, reached: set<nat>, u: nat, v: nat)
    requires Frontier(c, n, queue, reached, u) && u in reached && v < n && c[v] == White
    ensures Frontier(c[v := Gray], n, queue + [v], reached + {v}, u)
    ensures |reached + {v}| == |reached| + 1
  {
    assert v !in reached;
  }

  /** Examining the next out-edge of the vertex being expanded, with no vertex turning black or ceasing to be black. */
  lemma ClosedStep(c: seq<Color>, c': seq<Color>, es: seq<Edge>, examined: seq<nat>, outs: seq<nat>, k: nat)
    requires forall e :: 0 <= e < |es| ==> es[e].source < |c|
    requires |c'| == |c| && forall x :: 0 <= x < |c| ==> (c'[x] == Black <==> c[x] == Black)
    requires k < |outs| && Closed(c, es, examined, outs[..k])
    ensures Closed(c', es, examined + [outs[k]], outs[..k + 1])
  {
    assert outs[..k + 1] == outs[..k] + [outs[k]];
  }

  /** The vertices after examining e differ from the original ones as initBy, extended by e when e initialises its target, says. */
  lemma InitialisedStep(vs0: seq<VertexDs>, vs: seq<VertexDs>, es: seq<Edge>, examined: seq<nat>, initBy: map<nat, nat>, e: nat)
    requires Initialised(vs0, vs, es, examined, initBy) && e < |es|
    ensures var u, v := es[e].source, es[e].target;
            Initialised(vs0, InitTarget(vs, es[e]), es, examined + [e],
                        if vs[u].isInit && !vs[v].isInit then initBy[v := e] else initBy)
  {
    var u, v := es[e].source, es[e].target;
    if vs[u].isInit && !vs[v].isInit {
      InitialisedGrows(vs0, vs, es, examined, initBy, e);
    }
  }

  /** The initialising case of InitialisedStep: the target joins initBy with e. */
  lemma InitialisedGrows(vs0: seq<VertexDs>, vs: seq<VertexDs>, es: seq<Edge>, examined: seq<nat>, initBy: map<nat, nat>, e: nat)
    requires Initialised(vs0, vs, es, examined, initBy) && e < |es|
    requires vs[es[e].source].isInit && !vs[es[e].target].isInit
    ensures Initialised(vs0, InitTarget(vs, es[e]), es, examined + [e], initBy[es[e].target := e])
  {
    var v := es[e].target;
    var vs' := InitTarget(vs, es[e]);
    var initBy' := initBy[v := e];
    InitTargetKeeps(vs, es[e]);
    assert v !in initBy;
    forall w | w in initBy' && w != v
      ensures vs'[es[initBy'[w]].source].isInit && vs'[es[initBy'[w]].source] == vs[es[initBy[w]].source]
    {
      assert vs[es[initBy[w]].source].isInit;
    }
  }

  /** Examining an edge out of a reached vertex keeps both ends of every examined edge reached, and every reached vertex initialised. */
  lemma ReachStep(vs: seq<VertexDs>, es: seq<Edge>, examined: seq<nat>, reached: set<nat>, seedsInit: bool, e: nat)
    requires Endpoints(vs, es) && (forall q :: 0 <= q < |examined| ==> examined[q] < |es|) && e < |es|
    requires Reach(vs, es, examined, reached, seedsInit) && es[e].source in reached
    ensures Endpoints(InitTarget(vs, es[e]), es)
    ensures Reach(InitTarget(vs, es[e]), es, examined + [e], reached + {es[e].target}, seedsInit)
  {
    InitTargetKeeps(vs, es[e]);
  }

  /** examine_edge on an edge not yet examined writes row |examined| of P, A and L for it and gives it that row. */
  lemma RowsStep(es: seq<Edge>, columns: map<nat, nat>, unitWeight: real, row: map<nat, nat>,
                 a: Matrix, p: Matrix, l: Matrix, examined: seq<nat>, e: nat, vs: seq<VertexDs>)
    requires Fits(|es|, a, p, l) && Measured(es) && ColumnsFit(columns, a) && Endpoints(vs, es)
    requires RowsWritten(es, columns, unitWeight, row, a, p, l, examined) && e < |es| && e !in examined
    ensures |examined| < |es|
    ensures var i := |examined|;
            RowsWritten(es, columns, unitWeight, row[e := i], DesignRow(a, i, es[e], columns),
                        Assign(p, i, i, Weight(unitWeight, es[e].ds.len)),
                        Assign(l, i, 0, MisclosureEntry(l.data[i][0], es[e], vs)), examined + [e])
  {
    DistinctBelow(examined, |es|, e);
    var i := |examined|;
    DesignRowEntries(a, i, es[e], columns);
    AssignEntries(p, i, i, Weight(unitWeight, es[e].ds.len));
    AssignEntries(l, i, 0, MisclosureEntry(l.data[i][0], es[e], vs));
    var ex := examined + [e];
    assert forall q :: 0 <= q < |examined| ==> ex[q] == examined[q];
  }

  /**
   * Under seeds that start initialised, examine_edge keeps every used row of L equal to the
   * misclosure of its edge: the new row is the new edge's, and the only vertex it can
   * initialise is an end of no examined edge.
   */
  lemma MisclosedStep(es: seq<Edge>, vs: seq<VertexDs>, l: Matrix, examined: seq<nat>, reached: set<nat>, e: nat)
    requires IsShape(l, |es|, 1) && Endpoints(vs, es) && |examined| < |es| && e < |es|
    requires forall q :: 0 <= q < |examined| ==> examined[q] < |es|
    requires Misclosed(l, es, vs, examined) && Reach(vs, es, examined, reached, true) && l.data[|examined|][0] == 0.0
    ensures Endpoints(InitTarget(vs, es[e]), es)
    ensures var vs' := InitTarget(vs, es[e]);
            Misclosed(Assign(l, |examined|, 0, MisclosureEntry(l.data[|examined|][0], es[e], vs')), es, vs', examined + [e])
  {
    var vs' := InitTarget(vs, es[e]);
    InitTargetKeeps(vs, es[e]);
    var ex := examined + [e];
    var l' := Assign(l, |examined|, 0, MisclosureEntry(l.data[|examined|][0], es[e], vs'));
    AssignEntries(l, |examined|, 0, MisclosureEntry(l.data[|examined|][0], es[e], vs'));
    forall i | 0 <= i < |ex|
      ensures l'.data[i][0] == MisclosureEntry(0.0, es[ex[i]], vs')
    {
      if i < |examined| {
        assert ex[i] == examined[i];
        assert es[examined[i]].source in reached && es[examined[i]].target in reached;
      }
    }
  }

  /** The state after examine_edge(e), as Visitor.ExamineEdge leaves it. */
  ghost function Examined(s: Snap, e: nat): Snap
    requires Prepared(s.vertices, s.edges, s.columns, s.a, s.p, s.l) && e < |s.edges| && s.ei < |s.edges|
  {
    var edge := s.edges[e];
    var vs := InitTarget(s.vertices, edge);
    s.(vertices := vs, row := s.row[e := s.ei], ei := s.ei + 1,
       p := Assign(s.p, s.ei, s.ei, Weight(s.unitWeight, edge.ds.len)),
       a := DesignRow(s.a, s.ei, edge, s.columns),
       l := Assign(s.l, s.ei, 0, MisclosureEntry(s.l.data[s.ei][0], edge, vs)))
  }

  /** The edge that initialises its target joins initBy. */
  function InitBy(initBy: map<nat, nat>, vs: seq<VertexDs>, es: seq<Edge>, e: nat): map<nat, nat>
    requires e < |es| && es[e].source < |vs| && es[e].target < |vs|
  {
    if vs[es[e].source].isInit && !vs[es[e].target].isInit then initBy[es[e].target := e] else initBy
  }

  /**
   * breadth_first_visit's step for the out-edge e of the vertex being expanded:
   * examine_edge, then a white target is greyed and queued (a tree edge) and any other
   * target raises the visitor's flag (a non-tree edge). Either way the target is reached.
   */
  ghost function Visit(s: Snap, queue: seq<nat>, tr: Trace, e: nat): (Snap, seq<nat>, Trace)
    requires Prepared(s.vertices, s.edges, s.columns, s.a, s.p, s.l) && e < |s.edges| && s.ei < |s.edges|
    requires s.edges[e].target < |s.color|
  {
    var v := s.edges[e].target;
    var white := s.color[v] == White;
    (Examined(s, e).(color := if white then s.color[v := Gray] else s.color, flag := s.flag || !white),
     if white then queue + [v] else queue,
     tr.(examined := tr.examined + [e], reached := tr.reached + {v}, initBy := InitBy(tr.initBy, s.vertices, s.edges, e),
         tree := if white then tr.tree + 1 else tr.tree, nonTree := if white then tr.nonTree else tr.nonTree + 1))
  }

  /** examine_edge keeps the matrices part of the invariant. */
  lemma RowsInvStep(es: seq<Edge>, columns: map<nat, nat>, unitWeight: real, row: map<nat, nat>,
                    a: Matrix, p: Matrix, l: Matrix, vs: seq<VertexDs>, examined: seq<nat>, reached: set<nat>, seedsInit: bool, e: nat)
    requires RowsInv(es, columns, unitWeight, row, a, p, l, |examined|, vs, examined, seedsInit)
    requires Reach(vs, es, examined, reached, seedsInit)
    requires e < |es| && e !in examined
    ensures |examined| < |es|
    ensures var i, vs' := |examined|, InitTarget(vs, es[e]);
            RowsInv(es, columns, unitWeight, row[e := i], DesignRow(a, i, es[e], columns),
                    Assign(p, i, i, Weight(unitWeight, es[e].ds.len)),
                    Assign(l, i, 0, MisclosureEntry(l.data[i][0], es[e], vs')), i + 1, vs', examined + [e], seedsInit)
  {
    var vs' := InitTarget(vs, es[e]);
    InitTargetKeeps(vs, es[e]);
    RowsStep(es, columns, unitWeight, row, a, p, l, examined, e, vs');
    if seedsInit {
      MisclosedStep(es, vs, l, examined, reached, e);
    }
  }

  /** examine_edge on an edge out of a reached vertex keeps the vertices part of the invariant, the target being reached. */
  lemma VerticesInvStep(vs0: seq<VertexDs>, vs: seq<VertexDs>, es: seq<Edge>, examined: seq<nat>, initBy: map<nat, nat>,
                        reached: set<nat>, seedsInit: bool, e: nat)
    requires VerticesInv(vs0, vs, es, examined, initBy, reached, seedsInit) && e < |es| && es[e].source in reached
    ensures VerticesInv(vs0, InitTarget(vs, es[e]), es, examined + [e], InitBy(initBy, vs, es, e), reached + {es[e].target}, seedsInit)
  {
    InitialisedStep(vs0, vs, es, examined, initBy, e);
    ReachStep(vs, es, examined, reached, seedsInit, e);
  }

  /** The colour step of a visit keeps the search part of the invariant. */
  lemma FrontierInvStep(c: seq<Color>, flag: bool, queue: seq<nat>, u: nat, tr: Trace, n: nat, seeds: seq<nat>, e: nat, v: nat)
    requires FrontierInv(c, flag, queue, u, tr, n, seeds) && v < n
    requires c[v] != White ==> v in tr.reached
    ensures var white := c[v] == White;
            var queue' := if white then queue + [v] else queue;
            var tr' := tr.(examined := tr.examined + [e], reached := tr.reached + {v},
                           tree := if white then tr.tree + 1 else tr.tree, nonTree := if white then tr.nonTree else tr.nonTree + 1);
            FrontierInv(if white then c[v := Gray] else c, flag || !white, queue', u, tr', n, seeds) &&
            |queue'| + |tr.reached| == |queue| + |tr'.reached|
  {
    if c[v] == White {
      FrontierGrows(c, n, queue, tr.reached, u, v);
    } else {
      assert tr.reached + {v} == tr.reached;
    }
  }

  /** Visiting an unexamined out-edge of the vertex being expanded keeps the invariant. */
  lemma VisitKeeps(s: Snap, queue: seq<nat>, u: nat, tr: Trace, vs0: seq<VertexDs>, es0: seq<Edge>, seeds: seq<nat>, e: nat)
    requires Inv(s, queue, u, tr, vs0, es0, seeds)
    requires e < |es0| && es0[e].source == u && e !in tr.examined
    ensures s.ei < |s.edges|
    ensures var r := Visit(s, queue, tr, e);
            Inv(r.0, r.1, u, r.2, vs0, es0, seeds) && |r.1| + |tr.reached| == |queue| + |r.2.reached|
  {
    var seedsInit := SeedsInit(vs0, seeds);
    RowsInvStep(es0, s.columns, s.unitWeight, s.row, s.a, s.p, s.l, s.vertices, tr.examined, tr.reached, seedsInit, e);
    VerticesInvStep(vs0, s.vertices, es0, tr.examined, tr.initBy, tr.reached, seedsInit, e);
    FrontierInvStep(s.color, s.flag, queue, u, tr, |vs0|, seeds, e, es0[e].target);
    ReachableStep(es0, seeds, tr.reached, e);
  }

  /** The next out-edge of the vertex being expanded is not yet examined, and visiting it closes it. */
  lemma VisitCloses(s: Snap, queue: seq<nat>, u: nat, tr: Trace, vs0: seq<VertexDs>, es0: seq<Edge>, seeds: seq<nat>,
                    outs: seq<nat>, k: nat)
    requires RowsInv(es0, s.columns, s.unitWeight, s.row, s.a, s.p, s.l, s.ei, s.vertices, tr.examined, SeedsInit(vs0, seeds))
    requires s.edges == es0 && |s.color| == |s.vertices| && u < |s.color| && s.color[u] == Gray
    requires outs == OutEdges(es0, u) && k < |outs|
    requires Closed(s.color, es0, tr.examined, outs[..k])
    ensures outs[k] !in tr.examined && s.ei < |s.edges|
    ensures var r := Visit(s, queue, tr, outs[k]);
            Closed(r.0.color, es0, r.2.examined, outs[..k + 1])
  {
    var e := outs[k];
    assert e !in outs[..k];
    assert es0[e].source == u;
    DistinctBelow(tr.examined, |es0|, e);
    ClosedStep(s.color, Visit(s, queue, tr, e).0.color, es0, tr.examined, outs, k);
  }

  /** Visiting the next out-edge of the vertex being expanded keeps the invariant and closes that edge. */
  lemma VisitStep(s: Snap, queue: seq<nat>, u: nat, tr: Trace, vs0: seq<VertexDs>, es0: seq<Edge>, seeds: seq<nat>,
                  outs: seq<nat>, k: nat)
    requires Inv(s, queue, u, tr, vs0, es0, seeds)
    requires outs == OutEdges(es0, u) && k < |outs|
    requires Closed(s.color, es0, tr.examined, outs[..k])
    ensures s.ei < |s.edges| && outs[k] < |s.edges|
    ensures var r := Visit(s, queue, tr, outs[k]);
            Inv(r.0, r.1, u, r.2, vs0, es0, seeds) && Closed(r.0.color, es0, r.2.examined, outs[..k + 1]) &&
            |r.1| + |tr.reached| == |queue| + |r.2.reached|
  {
    assert s.color[u] == Gray;
    VisitCloses(s, queue, u, tr, vs0, es0, seeds, outs, k);
    VisitKeeps(s, queue, u, tr, vs0, es0, seeds, outs[k]);
  }

  /**
   * One out-edge e of the vertex being expanded, as breadth_first_visit handles it: examine_edge,
   * then a white target turns gray and joins the queue, any other is a non-tree edge; s and s'
   * are the visitor and the colours before and after.
   */
  method VisitEdge(vis: Visitor, color: array<Color>, queue: seq<nat>, e: nat, ghost s: Snap, ghost tr: Trace)
    returns (queue': seq<nat>, ghost s': Snap, ghost tr': Trace)
    requires s == SnapOf(vis, color) && Prepared(s.vertices, s.edges, s.columns, s.a, s.p, s.l)
    requires e < |s.edges| && s.ei < |s.edges| && |s.color| == |s.vertices|
    modifies vis, vis.net`vertices, vis.nim`row, vis.eq, color
    ensures s' == SnapOf(vis, color) && (s', queue', tr') == Visit(s, queue, tr, e)
  {
    var v := vis.net.edges[e].target;
    vis.ExamineEdge(e);
    if color[v] == White {
      color[v] := Gray;
      queue' := queue + [v];
    } else {
      vis.NonTreeEdge(e);
      queue' := queue;
    }
    tr' := Visit(s, queue, tr, e).2;
    s' := SnapOf(vis, color);
  }

  /** Visits the k-th out-edge of u, keeping the invariant and closing that edge. */
  method VisitNext(vis: Visitor, color: array<Color>, queue: seq<nat>, u: nat, outs: seq<nat>, k: nat, ghost s: Snap, ghost tr: Trace,
                   ghost vs0: seq<VertexDs>, ghost es0: seq<Edge>, ghost seeds: seq<nat>)
    returns (queue': seq<nat>, ghost s': Snap, ghost tr': Trace)
    requires s == SnapOf(vis, color) && Inv(s, queue, u, tr, vs0, es0, seeds)
    requires outs == OutEdges(es0, u) && k < |outs| && Closed(s.color, es0, tr.examined, outs[..k])
    modifies vis, vis.net`vertices, vis.nim`row, vis.eq, color
    ensures s' == SnapOf(vis, color) && Inv(s', queue', u, tr', vs0, es0, seeds)
    ensures Closed(s'.color, es0, tr'.examined, outs[..k + 1])
    ensures |queue'| + |tr.reached| == |queue| + |tr'.reached| && |tr.reached| <= |tr'.reached|
  {
    VisitStep(s, queue, u, tr, vs0, es0, seeds, outs, k);
    queue', s', tr' := VisitEdge(vis, color, queue, outs[k], s, tr);
  }

  /**
   * Expands u: every out-edge of u, in insertion order, is visited. Afterwards an edge is
   * examined exactly when its source is black or it leaves u.
   */
  method ExpandVertex(vis: Visitor, color: array<Color>, queue: seq<nat>, u: nat, ghost s: Snap, ghost tr: Trace,
                      ghost vs0: seq<VertexDs>, ghost es0: seq<Edge>, ghost seeds: seq<nat>)
    returns (queue': seq<nat>, ghost s': Snap, ghost tr': Trace)
    requires s == SnapOf(vis, color) && Inv(s, queue, u, tr, vs0, es0, seeds)
    requires Closed(s.color, es0, tr.examined, [])
    modifies vis, vis.net`vertices, vis.nim`row, vis.eq, color
    ensures s' == SnapOf(vis, color) && Inv(s', queue', u, tr', vs0, es0, seeds)
    ensures Closed(s'.color, es0, tr'.examined, OutEdges(es0, u))
    ensures |queue'| + |tr.reached| == |queue| + |tr'.reached| && |tr.reached| <= |tr'.reached|
  {
    var outs := OutEdges(vis.net.edges, u);
    queue', s', tr' := queue, s, tr;
    assert outs[..0] == [];
    for k := 0 to |outs|
      invariant s' == SnapOf(vis, color) && Inv(s', queue', u, tr', vs0, es0, seeds)
      invariant Closed(s'.color, es0, tr'.examined, outs[..k])
      invariant |queue'| + |tr.reached| == |queue| + |tr'.reached| && |tr.reached| <= |tr'.reached|
    {
      queue', s', tr' := VisitNext(vis, color, queue', u, outs, k, s', tr', vs0, es0, seeds);
    }
    assert outs[..|outs|] == outs;
  }

  /** The set of the elements of a sequence. */
  function Elements(s: seq<nat>): set<nat>
  {
    set q | 0 <= q < |s| :: s[q]
  }

  /** The marks at the end of a directed path of at most k runs from a seed. */
  ghost function Within(es: seq<Edge>, seeds: seq<nat>, k: nat): set<nat>
  {
    if k == 0 then Elements(seeds)
    else Within(es, seeds, k - 1) + set e | 0 <= e < |es| && es[e].source in Within(es, seeds, k - 1) :: es[e].target
  }

  /** Whether a directed path of runs leads from some seed to v. */
  ghost predicate Reachable(es: seq<Edge>, seeds: seq<nat>, v: nat)
  {
    exists k: nat :: v in Within(es, seeds, k)
  }

  /** Every mark in `reached` is reachable from the seeds. */
  ghost predicate AllReachable(es: seq<Edge>, seeds: seq<nat>, reached: set<nat>)
  {
    forall v :: v in reached ==> Reachable(es, seeds, v)
  }

  /** Following a run out of a reachable mark reaches its target. */
  lemma ReachableStep(es: seq<Edge>, seeds: seq<nat>, reached: set<nat>, e: nat)
    requires AllReachable(es, seeds, reached) && e < |es| && es[e].source in reached
    ensures AllReachable(es, seeds, reached + {es[e].target})
  {
    var k: nat :| es[e].source in Within(es, seeds, k);
    assert es[e].target in Within(es, seeds, k + 1);
  }

  /** A set of marks that holds the seeds and is closed under the runs holds every reachable mark. */
  lemma {:induction false} ClosedHoldsWithin(es: seq<Edge>, seeds: seq<nat>, reached: set<nat>, k: nat)
    requires forall q :: 0 <= q < |seeds| ==> seeds[q] in reached
    requires forall e :: 0 <= e < |es| && es[e].source in reached ==> es[e].target in reached
    ensures Within(es, seeds, k) <= reached
  {
    if k > 0 {
      ClosedHoldsWithin(es, seeds, reached, k - 1);
    }
  }

  /** The least closed set: a closed set of reachable marks holding the seeds is exactly the reachable marks. */
  lemma ReachedIsReachable(es: seq<Edge>, seeds: seq<nat>, reached: set<nat>)
    requires AllReachable(es, seeds, reached)
    requires forall q :: 0 <= q < |seeds| ==> seeds[q] in reached
    requires forall e :: 0 <= e < |es| && es[e].source in reached ==> es[e].target in reached
    ensures forall v :: v in reached <==> Reachable(es, seeds, v)
  {
    forall v | Reachable(es, seeds, v)
      ensures v in reached
    {
      var k: nat :| v in Within(es, seeds, k);
      ClosedHoldsWithin(es, seeds, reached, k);
    }
  }

  /**
   * The start of the search: nothing examined, the matrices zero, the seeds grey and queued
   * and every other vertex white.
   */
  lemma StartInv(s: Snap, queue: seq<nat>, vs0: seq<VertexDs>, es0: seq<Edge>, seeds: seq<nat>)
    requires s.vertices == vs0 && s.edges == es0 && Prepared(vs0, es0, s.columns, s.a, s.p, s.l)
    requires s.ei == 0 && s.row == map[] && !s.flag
    requires s.a == Zero(|es0|, s.a.cols) && s.p == Zero(|es0|, |es0|) && s.l == Zero(|es0|, 1)
    requires Distinct(seeds) && forall q :: 0 <= q < |seeds| ==> seeds[q] < |vs0|
    requires queue == seeds && |s.color| == |vs0|
    requires forall v :: 0 <= v < |vs0| ==> s.color[v] == if v in seeds then Gray else White
    ensures Inv(s, queue, -1, Trace([], Elements(seeds), map[], 0, 0), vs0, es0, seeds)
    ensures Closed(s.color, es0, [], [])
  {
    DistinctCard(seeds);
    assert Within(es0, seeds, 0) == Elements(seeds);
  }

  /** Taking the head of the queue makes it the vertex being expanded. */
  lemma FrontierPop(c: seq<Color>, flag: bool, queue: seq<nat>, tr: Trace, n: nat, seeds: seq<nat>)
    requires FrontierInv(c, flag, queue, -1, tr, n, seeds) && queue != []
    ensures FrontierInv(c, flag, queue[1..], queue[0], tr, n, seeds)
  {
    assert queue == [queue[0]] + queue[1..];
  }

  /** Blackening the expanded vertex ends its expansion. */
  lemma FrontierFinish(c: seq<Color>, flag: bool, queue: seq<nat>, u: nat, tr: Trace, n: nat, seeds: seq<nat>)
    requires FrontierInv(c, flag, queue, u, tr, n, seeds)
    ensures FrontierInv(c[u := Black], flag, queue, -1, tr, n, seeds)
  {
  }

  /** Once every out-edge of u is examined, blackening u leaves "examined exactly when the source is black". */
  lemma ClosedFinish(c: seq<Color>, es: seq<Edge>, examined: seq<nat>, u: nat)
    requires (forall e :: 0 <= e < |es| ==> es[e].source < |c|) && u < |c|
    requires Closed(c, es, examined, OutEdges(es, u))
    ensures Closed(c[u := Black], es, examined, [])
  {
  }

  /** The loop step of the search keeps the invariant: pop, expand, blacken. */
  lemma PopKeeps(s: Snap, queue: seq<nat>, tr: Trace, vs0: seq<VertexDs>, es0: seq<Edge>, seeds: seq<nat>)
    requires Inv(s, queue, -1, tr, vs0, es0, seeds) && queue != []
    ensures Inv(s, queue[1..], queue[0], tr, vs0, es0, seeds)
  {
    FrontierPop(s.color, s.flag, queue, tr, |vs0|, seeds);
  }

  lemma FinishKeeps(s: Snap, queue: seq<nat>, u: nat, tr: Trace, vs0: seq<VertexDs>, es0: seq<Edge>, seeds: seq<nat>)
    requires Inv(s, queue, u, tr, vs0, es0, seeds) && Closed(s.color, es0, tr.examined, OutEdges(es0, u))
    ensures Inv(s.(color := s.color[u := Black]), queue, -1, tr, vs0, es0, seeds)
    ensures Closed(s.color[u := Black], es0, tr.examined, [])
    ensures |tr.reached| <= |vs0|
  {
    FrontierFinish(s.color, s.flag, queue, u, tr, |vs0|, seeds);
    ClosedFinish(s.color, es0, tr.examined, u);
    SubsetRangeCard(tr.reached, |vs0|);
  }

  /**
   * When the queue is empty: an edge was examined exactly when its source was reached, the
   * reached vertices are closed under the edges, and non-tree edges were seen exactly when
   * more edges were examined than the tree needed.
   */
  lemma SearchDone(s: Snap, tr: Trace, vs0: seq<VertexDs>, es0: seq<Edge>, seeds: seq<nat>)
    requires Inv(s, [], -1, tr, vs0, es0, seeds) && Closed(s.color, es0, tr.examined, [])
    ensures forall e :: 0 <= e < |es0| ==> (e in tr.examined <==> es0[e].source in tr.reached)
    ensures forall e :: 0 <= e < |es0| && es0[e].source in tr.reached ==> es0[e].target in tr.reached
    ensures s.flag <==> |tr.examined| + |seeds| > |tr.reached|
    ensures forall v :: v in tr.reached <==> Reachable(es0, seeds, v)
  {
    forall e | 0 <= e < |es0| && es0[e].source in tr.reached
      ensures es0[e].target in tr.reached
    {
      var q :| 0 <= q < |tr.examined| && tr.examined[q] == e;
    }
    ReachedIsReachable(es0, seeds, tr.reached);
  }

  /** The colour map and queue a multi-source search starts from: the seeds grey and queued in order, every other vertex white. */
  method SeedColors(n: nat, seeds: seq<nat>) returns (color: array<Color>, queue: seq<nat>)
    requires forall q :: 0 <= q < |seeds| ==> seeds[q] < n
    ensures fresh(color) && color.Length == n && queue == seeds
    ensures forall v :: 0 <= v < n ==> color[v] == if v in seeds then Gray else White
  {
    color := new Color[n](_ => White);
    queue := [];
    for i := 0 to |seeds|
      invariant queue == seeds[..i]
      invariant forall v :: 0 <= v < n ==> color[v] == if v in seeds[..i] then Gray else White
    {
      assert seeds[..i + 1] == seeds[..i] + [seeds[i]];
      color[seeds[i]] := Gray;
      queue := queue + [seeds[i]];
    }
    assert seeds[..|seeds|] == seeds;
  }

  /** One round of breadth_first_visit: pop the head of the queue, expand it and blacken it. */
  method ProcessHead(vis: Visitor, color: array<Color>, queue: seq<nat>, ghost s: Snap, ghost tr: Trace,
                     ghost vs0: seq<VertexDs>, ghost es0: seq<Edge>, ghost seeds: seq<nat>)
    returns (queue': seq<nat>, ghost s': Snap, ghost tr': Trace)
    requires s == SnapOf(vis, color) && Inv(s, queue, -1, tr, vs0, es0, seeds) && queue != []
    requires Closed(s.color, es0, tr.examined, [])
    modifies vis, vis.net`vertices, vis.nim`row, vis.eq, color
    ensures s' == SnapOf(vis, color) && Inv(s', queue', -1, tr', vs0, es0, seeds) && Closed(s'.color, es0, tr'.examined, [])
    ensures |tr.reached| <= |tr'.reached| <= |vs0|
    ensures |tr.reached| == |tr'.reached| ==> |queue'| < |queue|
  {
    var u := queue[0];
    PopKeeps(s, queue, tr, vs0, es0, seeds);
    queue', s', tr' := ExpandVertex(vis, color, queue[1..], u, s, tr, vs0, es0, seeds);
    FinishKeeps(s', queue', u, tr', vs0, es0, seeds);
    color[u] := Black;
    s' := s'.(color := s'.color[u := Black]);
  }

  /** The main loop of breadth_first_visit: rounds until the queue is empty. */
  method SearchLoop(vis: Visitor, color: array<Color>, queue: seq<nat>, ghost s: Snap, ghost tr: Trace,
                    ghost vs0: seq<VertexDs>, ghost es0: seq<Edge>, ghost seeds: seq<nat>)
    returns (ghost s': Snap, ghost tr': Trace)
    requires s == SnapOf(vis, color) && Inv(s, queue, -1, tr, vs0, es0, seeds)
    requires Closed(s.color, es0, tr.examined, []) && |tr.reached| <= |vs0|
    modifies vis, vis.net`vertices, vis.nim`row, vis.eq, color
    ensures s' == SnapOf(vis, color) && Inv(s', [], -1, tr', vs0, es0, seeds) && Closed(s'.color, es0, tr'.examined, [])
  {
    var q := queue;
    s', tr' := s, tr;
    while q != []
      invariant s' == SnapOf(vis, color) && Inv(s', q, -1, tr', vs0, es0, seeds)
      invariant Closed(s'.color, es0, tr'.examined, []) && |tr'.reached| <= |vs0|
      decreases |vs0| - |tr'.reached|, |q|
    {
      q, s', tr' := ProcessHead(vis, color, q, s', tr', vs0, es0, seeds);
    }
  }

  /**
   * boost::breadth_first_search from the seeds: every vertex starts white, the seeds turn
   * grey and are queued in order; the head of the queue is expanded and then turns black.
   * The visitor ends with one row written per examined edge, in examination order.
   */
  method BreadthFirstSearch(vis: Visitor, seeds: seq<nat>) returns (ghost tr: Trace)
    requires Prepared(vis.net.vertices, vis.net.edges, vis.nim.column, vis.eq.a, vis.eq.p, vis.eq.l)
    requires vis.ei == 0 && vis.nim.row == map[] && !vis.selfLoopDetected
    requires vis.eq.a == Zero(|vis.net.edges|, vis.eq.a.cols) && vis.eq.p == Zero(|vis.net.edges|, |vis.net.edges|)
    requires vis.eq.l == Zero(|vis.net.edges|, 1)
    requires Distinct(seeds) && forall q :: 0 <= q < |seeds| ==> seeds[q] < |vis.net.vertices|
    modifies vis, vis.net`vertices, vis.nim`row, vis.eq
    ensures RowsInv(vis.net.edges, vis.nim.column, vis.unitWeight, vis.nim.row, vis.eq.a, vis.eq.p, vis.eq.l, vis.ei,
                    vis.net.vertices, tr.examined, SeedsInit(old(vis.net.vertices), seeds))
    ensures VerticesInv(old(vis.net.vertices), vis.net.vertices, vis.net.edges, tr.examined, tr.initBy, tr.reached,
                        SeedsInit(old(vis.net.vertices), seeds))
    ensures forall q :: 0 <= q < |seeds| ==> seeds[q] in tr.reached
    ensures forall v :: v in tr.reached ==> v < |vis.net.vertices|
    ensures var es := vis.net.edges;
            forall e :: 0 <= e < |es| ==> (e in tr.examined <==> es[e].source in tr.reached)
    ensures var es := vis.net.edges;
            forall e :: 0 <= e < |es| && es[e].source in tr.reached ==> es[e].target in tr.reached
    ensures vis.selfLoopDetected <==> |tr.examined| + |seeds| > |tr.reached|
    ensures forall v :: v in tr.reached <==> Reachable(vis.net.edges, seeds, v)
  {
    ghost var vs0, es0 := vis.net.vertices, vis.net.edges;
    var color, queue := SeedColors(|vis.net.vertices|, seeds);
    ghost var s := SnapOf(vis, color);
    StartInv(s, queue, vs0, es0, seeds);
    tr := Trace([], Elements(seeds), map[], 0, 0);
    SubsetRangeCard(tr.reached, |vs0|);
    s, tr := SearchLoop(vis, color, queue, s, tr, vs0, es0, seeds);
    SearchDone(s, tr, vs0, es0, seeds);
  }

  // ---------------------------------------------------------------------------
  // Solving the normal equations and writing the corrections back

  /** Some run starts and ends at the same bench mark. */
  predicate HasSelfLoop(es: seq<Edge>)
  {
    exists e :: 0 <= e < |es| && es[e].source == es[e].target
  }

  /** The coefficient of column j in the observation equation of e: +1 for a free target, -1 for a free source. */
  function Coefficient(e: Edge, columns: map<nat, nat>, j: nat): real
  {
    (if e.target in columns && j == columns[e.target] then 1.0 else 0.0) -
    (if e.source in columns && j == columns[e.source] then 1.0 else 0.0)
  }

  /**
   * With distinct columns for distinct vertices, a design row is the observation equation
   * x(target) - x(source) of its run everywhere except at the column of a free mark that
   * the run leaves and enters, where it holds +1 instead of 0.
   */
  lemma DesignEntryCoefficient(e: Edge, columns: map<nat, nat>, j: nat)
    requires forall x, y :: x in columns && y in columns && x != y ==> columns[x] != columns[y]
    ensures DesignEntry(0.0, e, columns, j) == Coefficient(e, columns, j) <==>
            !(e.source == e.target && e.source in columns && j == columns[e.source])
  {
  }

  /** The least-squares solution: the inverse normal matrix, the corrections x and the residuals V, in metres. */
  datatype Solution = Solution(atai: Matrix, x: Matrix, v: Matrix)

  /**
   * AtAi = choleskyInverse(normalizedEquation(A, P)), x = AtAi · AᵀPL / 1000 and
   * V = A·x - L / 1000, L being in millimetres.
   */
  function Solve(a: Matrix, p: Matrix, l: Matrix, f: Factorizations): (s: Solution)
    requires Fits(a.rows, a, p, l) && Shaped(f)
    ensures IsShape(s.atai, a.cols, a.cols) && IsShape(s.x, a.cols, 1) && IsShape(s.v, a.rows, 1)
  {
    var atai := CholeskyInverse(NormalizedEquation(a, p), f);
    var x := Over(Mul(atai, Mul(Mul(Transpose(a), p), l)), 1000.0);
    Solution(atai, x, Sub(Mul(a, x), Over(l, 1000.0)))
  }

  /**
   * Whenever AtAi inverts the normal matrix, x solves the normal equations, scaled back to
   * millimetres: (AᵀPA) · 1000x = AᵀPL.
   */
  lemma SolveNormalEquations(a: Matrix, p: Matrix, l: Matrix, f: Factorizations)
    requires Fits(a.rows, a, p, l) && Shaped(f)
    requires Mul(NormalizedEquation(a, p), Solve(a, p, l, f).atai) == IdentityLike(a.cols, a.cols)
    ensures Mul(NormalizedEquation(a, p), Times(Solve(a, p, l, f).x, 1000.0)) == Mul(Mul(Transpose(a), p), l)
  {
    var n := NormalizedEquation(a, p);
    var atai := Solve(a, p, l, f).atai;
    var b := Mul(Mul(Transpose(a), p), l);
    TimesOver(Mul(atai, b), 1000.0);
    MulAssociative(n, atai, b);
    MulIdentityLeft(IdentityLike(a.cols, a.cols), b);
  }

  /** A bench mark with its elevation raised by dx. */
  function Raised(v: VertexDs, dx: real): (r: VertexDs)
    ensures r.elev == v.elev + dx && r.name == v.name && r.isControl == v.isControl && r.isInit == v.isInit
  {
    v.(elev := v.elev + dx)
  }

  /** A run with its height difference corrected by dv. */
  function Corrected(e: Edge, dv: real): (r: Edge)
    ensures r.ds.diff == e.ds.diff + dv && r.source == e.source && r.target == e.target
    ensures r.ds.name == e.ds.name && r.ds.len == e.ds.len
  {
    e.(ds := e.ds.(diff := e.ds.diff + dv))
  }

  /** The vertex write-back loop: every free mark's elevation grows by its entry of x; control points are skipped. */
  method CorrectVertices(net: Net, columns: map<nat, nat>, x: Matrix)
    requires Indexed(net.vertices, columns) && Valid(x) && x.cols == 1
    requires forall i :: i in columns ==> columns[i] < x.rows
    modifies net`vertices
    ensures |net.vertices| == |old(net.vertices)|
    ensures forall i :: 0 <= i < |net.vertices| ==>
              net.vertices[i] == if old(net.vertices[i]).isControl then old(net.vertices[i])
                                 else Raised(old(net.vertices[i]), x.data[columns[i]][0])
  {
    ghost var vs0 := net.vertices;
    for i := 0 to |net.vertices|
      invariant |net.vertices| == |vs0|
      invariant forall k :: 0 <= k < |vs0| ==>
                  net.vertices[k] == if k >= i || vs0[k].isControl then vs0[k] else Raised(vs0[k], x.data[columns[k]][0])
    {
      if net.vertices[i].isControl {
        continue;
      }
      net.vertices := net.vertices[i := Raised(net.vertices[i], x.data[columns[i]][0])];
    }
  }

  /** The runs of es whose source is below u have been corrected by their residuals; the others are as in es. */
  ghost predicate CorrectedBelow(edges: seq<Edge>, es: seq<Edge>, row: map<nat, nat>, v: Matrix, u: nat, done: seq<nat>)
    requires Valid(v) && v.cols == 1 && forall e :: e in row ==> row[e] < v.rows
  {
    |edges| == |es| &&
    forall e :: 0 <= e < |es| ==>
      if es[e].source < u || e in done then e in row && edges[e] == Corrected(es[e], v.data[row[e]][0])
      else edges[e] == es[e]
  }

  /** The inner write-back loop: the out-edges of u in order; getei fails on one with no row. */
  method CorrectOutEdges(net: Net, es: seq<Edge>, u: nat, row: map<nat, nat>, v: Matrix) returns (o: Outcome)
    requires Valid(v) && v.cols == 1 && forall e :: e in row ==> row[e] < v.rows
    requires CorrectedBelow(net.edges, es, row, v, u, [])
    modifies net`edges
    ensures o.Pass? ==> CorrectedBelow(net.edges, es, row, v, u + 1, [])
    ensures o.Fail? ==> o.error == OutOfRange && exists e :: 0 <= e < |es| && e !in row
    ensures |net.edges| == |es| && forall e :: 0 <= e < |es| ==>
              net.edges[e] == es[e] || (e in row && net.edges[e] == Corrected(es[e], v.data[row[e]][0]))
  {
    var outs := OutEdges(es, u);
    for k := 0 to |outs|
      invariant CorrectedBelow(net.edges, es, row, v, u, outs[..k])
    {
      var e := outs[k];
      assert outs[..k + 1] == outs[..k] + [e];
      if e !in row {
        return Fail(OutOfRange);
      }
      net.edges := net.edges[e := Corrected(net.edges[e], v.data[row[e]][0])];
    }
    assert outs[..|outs|] == outs;
    return Pass;
  }

  /**
   * The run write-back loop, over the out-edges of each vertex in turn: every run's
   * difference grows by its residual V(getei(e)). getei fails on a run the search never
   * examined, which has no row; the runs handled before it stay corrected.
   */
  method CorrectEdges(net: Net, row: map<nat, nat>, v: Matrix) returns (o: Outcome)
    requires Endpoints(net.vertices, net.edges) && Valid(v) && v.cols == 1
    requires forall e :: e in row ==> row[e] < v.rows
    modifies net`edges
    ensures |net.edges| == |old(net.edges)|
    ensures o.Pass? <==> forall e :: 0 <= e < |net.edges| ==> e in row
    ensures o.Fail? ==> o.error == OutOfRange
    ensures forall e :: 0 <= e < |net.edges| ==>
              net.edges[e] == old(net.edges[e]) || (e in row && net.edges[e] == Corrected(old(net.edges[e]), v.data[row[e]][0]))
    ensures o.Pass? ==> forall e :: 0 <= e < |net.edges| ==> net.edges[e] == Corrected(old(net.edges[e]), v.data[row[e]][0])
  {
    var es := net.edges;
    for u := 0 to |net.vertices|
      invariant CorrectedBelow(net.edges, es, row, v, u, [])
    {
      o := CorrectOutEdges(net, es, u, row, v);
      if o.Fail? {
        return;
      }
    }
    return Pass;
  }

  /**
   * What the search leaves behind, started from the vertices vs0 with the seeds: the rows of
   * the examined runs written in order, the vertices initialised along them, and the examined
   * runs exactly those that leave a reached vertex.
   */
  ghost predicate Searched(vs0: seq<VertexDs>, es: seq<Edge>, columns: map<nat, nat>, unitWeight: real, seeds: seq<nat>,
                           vs: seq<VertexDs>, tr: Trace, row: map<nat, nat>, a: Matrix, p: Matrix, l: Matrix)
  {
    RowsInv(es, columns, unitWeight, row, a, p, l, |tr.examined|, vs, tr.examined, SeedsInit(vs0, seeds)) &&
    VerticesInv(vs0, vs, es, tr.examined, tr.initBy, tr.reached, SeedsInit(vs0, seeds)) &&
    (forall q :: 0 <= q < |seeds| ==> seeds[q] in tr.reached) &&
    (forall v :: v in tr.reached ==> v < |vs|) &&
    (forall e :: 0 <= e < |es| ==> (e in tr.examined <==> es[e].source in tr.reached)) &&
    (forall e :: 0 <= e < |es| && es[e].source in tr.reached ==> es[e].target in tr.reached) &&
    (forall v :: v in tr.reached <==> Reachable(es, seeds, v))
  }

  /** Every row index the search hands out is a row of the equations. */
  lemma RowsBelow(es: seq<Edge>, columns: map<nat, nat>, unitWeight: real, row: map<nat, nat>,
                  a: Matrix, p: Matrix, l: Matrix, examined: seq<nat>)
    requires Fits(|es|, a, p, l) && Measured(es) && RowsWritten(es, columns, unitWeight, row, a, p, l, examined)
    ensures forall e :: e in row ==> row[e] < |es|
  {
    forall e | e in row
      ensures row[e] < |es|
    {
      var q :| 0 <= q < |examined| && examined[q] == e;
    }
  }

  /**
   * netAdjust's set-up and search: the index manager takes the columns, A, P and L start at
   * zero, and the visitor goes to the search by value. The search raises the flag of its
   * copy; `valid` is the flag of netAdjust's own visitor, which nothing raises.
   */
  method Survey(net: Net, unitWeight: real, columns: map<nat, nat>, seeds: seq<nat>, t: nat)
    returns (eq: Equations, nim: Indices, valid: bool, ghost tr: Trace)
    requires Endpoints(net.vertices, net.edges) && Measured(net.edges) && Indexed(net.vertices, columns)
    requires forall i :: i in columns ==> columns[i] < t
    requires Distinct(seeds) && forall q :: 0 <= q < |seeds| ==> seeds[q] < |net.vertices|
    modifies net`vertices
    ensures fresh(eq) && fresh(nim) && nim.column == columns && valid
    ensures Searched(old(net.vertices), net.edges, columns, unitWeight, seeds, net.vertices, tr, nim.row, eq.a, eq.p, eq.l)
    ensures Fits(|net.edges|, eq.a, eq.p, eq.l) && Indexed(net.vertices, columns) && ColumnsFit(columns, eq.a)
    ensures Endpoints(net.vertices, net.edges) && forall e :: e in nim.row ==> nim.row[e] < |net.edges|
    ensures forall e :: 0 <= e < |net.edges| ==> (e in nim.row <==> net.edges[e].source in tr.reached)
  {
    nim := new Indices();
    nim.column := columns;
    eq := new Equations(|net.edges|, t);
    var visitor := new Visitor(net, nim, eq, unitWeight);
    var copy := visitor.Copy();
    tr := BreadthFirstSearch(copy, seeds);
    valid := visitor.IsValid();
    RowsBelow(net.edges, columns, unitWeight, nim.row, eq.a, eq.p, eq.l, tr.examined);
  }

  /** The checks netAdjust makes before it touches the network: enough runs, no self-loop, every run with a length. */
  function Precheck(vs: seq<VertexDs>, es: seq<Edge>): (o: Outcome)
    ensures o.Pass? <==> |es| >= FreeCount(vs) && !HasSelfLoop(es) && Measured(es)
    ensures o.Fail? ==> (o.error == NonFinite <==> |es| >= FreeCount(vs) && !HasSelfLoop(es))
  {
    if |es| < FreeCount(vs) then Fail(InvalidArgument)
    else if HasSelfLoop(es) then Fail(InvalidArgument)
    else if !Measured(es) then Fail(NonFinite)
    else Pass
  }

  /** Adjust_Net_Result: the network as netAdjust received it, the rmse and the error matrix. */
  datatype NetReport = NetReport(net: NetValue, rmse: Option<real>, sigma: Option<Matrix>)

  /** The intermediate values of one adjustment: the vertices after the search, its trace, the rows, the equations and the solution. */
  datatype Run = Run(searched: seq<VertexDs>, tr: Trace, row: map<nat, nat>, a: Matrix, p: Matrix, l: Matrix, sol: Solution)

  /** rmse, and the error matrix it scales, when n > t; neither when n = t. */
  function Precision(v: Matrix, n: nat, t: nat, p: Matrix, atai: Matrix, sqrt: real -> real): (r: (Option<real>, Option<Matrix>))
    requires Valid(v) && Valid(p) && Valid(atai) && v.cols > 0 && WeightFits(v, p)
    ensures r.0.None? <==> n == t
    ensures r.1.None? <==> n == t
    ensures r.0.Some? ==> r.1.value == ErrorMatrix(r.0.value, atai, sqrt)
  {
    var rmse := Rmse(v, n, t, p, sqrt);
    (rmse, if rmse.Some? then Some(ErrorMatrix(rmse.value, atai, sqrt)) else None)
  }

  /** The marks after the write-back: control points as the search left them, free marks raised by their corrections. */
  ghost predicate MarksCorrected(searched: seq<VertexDs>, columns: map<nat, nat>, x: Matrix, vs: seq<VertexDs>)
    requires Indexed(searched, columns) && Valid(x) && x.cols == 1 && forall i :: i in columns ==> columns[i] < x.rows
  {
    |vs| == |searched| &&
    forall i :: 0 <= i < |searched| ==>
      vs[i] == if searched[i].isControl then searched[i] else Raised(searched[i], x.data[columns[i]][0])
  }

  /** The runs after the write-back: each as it was or corrected by its residual, and every one corrected when `complete`. */
  ghost predicate RunsCorrected(es0: seq<Edge>, row: map<nat, nat>, v: Matrix, es: seq<Edge>, complete: bool)
    requires Valid(v) && v.cols == 1 && forall e :: e in row ==> row[e] < v.rows
  {
    |es| == |es0| &&
    (forall e :: 0 <= e < |es0| ==> es[e] == es0[e] || (e in row && es[e] == Corrected(es0[e], v.data[row[e]][0]))) &&
    (complete ==> forall e :: 0 <= e < |es0| ==> e in row && es[e] == Corrected(es0[e], v.data[row[e]][0]))
  }

  /**
   * One adjustment of the network (vs, es) past the checks, leaving (vs', es') and
   * the result r: the search as Searched says, the solution of its equations, the marks and
   * the runs written back, a failure exactly when some run leaves an unreached mark, and
   * otherwise the incoming network reported with the precision.
   */
  ghost predicate Adjusted(vs: seq<VertexDs>, es: seq<Edge>, unitWeight: real, f: Factorizations, sqrt: real -> real,
                           run: Run, vs': seq<VertexDs>, es': seq<Edge>, r: Result<NetReport>)
    requires Shaped(f)
  {
    Searched(vs, es, Columns(vs), unitWeight, Seeds(vs), run.searched, run.tr, run.row, run.a, run.p, run.l) &&
    run.sol == Solve(run.a, run.p, run.l, f) &&
    MarksCorrected(run.searched, Columns(vs), run.sol.x, vs') &&
    (forall e :: e in run.row ==> run.row[e] < |es|) &&
    RunsCorrected(es, run.row, run.sol.v, es', r.Ok?) &&
    (r.Ok? <==> forall e :: 0 <= e < |es| ==> es[e].source in run.tr.reached) &&
    (r.Err? ==> r.error == OutOfRange) &&
    (r.Ok? ==> r.value.net == NetValue(vs, es) &&
               (r.value.rmse, r.value.sigma) == Precision(run.sol.v, |es|, FreeCount(vs), run.p, run.sol.atai, sqrt))
  }

  /** With every run measured, the network meets what the search asks of it. */
  lemma CheckedNetwork(vs: seq<VertexDs>, es: seq<Edge>)
    requires Measured(es)
    ensures Indexed(vs, Columns(vs)) && forall i :: i in Columns(vs) ==> Columns(vs)[i] < FreeCount(vs)
    ensures Distinct(Seeds(vs)) && forall q :: 0 <= q < |Seeds(vs)| ==> Seeds(vs)[q] < |vs|
  {
    SeedsAreControls(vs, |vs|);
    ColumnsInjective(vs);
  }

  /** Both write-back loops: the marks, then the runs. */
  method WriteBack(net: Net, columns: map<nat, nat>, row: map<nat, nat>, sol: Solution) returns (o: Outcome)
    requires Indexed(net.vertices, columns) && Endpoints(net.vertices, net.edges)
    requires Valid(sol.x) && sol.x.cols == 1 && forall i :: i in columns ==> columns[i] < sol.x.rows
    requires Valid(sol.v) && sol.v.cols == 1 && forall e :: e in row ==> row[e] < sol.v.rows
    modifies net`vertices, net`edges
    ensures MarksCorrected(old(net.vertices), columns, sol.x, net.vertices)
    ensures RunsCorrected(old(net.edges), row, sol.v, net.edges, o.Pass?)
    ensures (o.Pass? <==> forall e :: 0 <= e < |net.edges| ==> e in row) && (o.Fail? ==> o.error == OutOfRange)
  {
    CorrectVertices(net, columns, sol.x);
    o := CorrectEdges(net, row, sol.v);
  }

  /** The pieces of one adjustment make up Adjusted. */
  lemma AdjustedIntro(vs: seq<VertexDs>, es: seq<Edge>, unitWeight: real, f: Factorizations, sqrt: real -> real,
                      run: Run, vs': seq<VertexDs>, es': seq<Edge>, r: Result<NetReport>)
    requires Shaped(f)
    requires Searched(vs, es, Columns(vs), unitWeight, Seeds(vs), run.searched, run.tr, run.row, run.a, run.p, run.l)
    requires Fits(|es|, run.a, run.p, run.l) && Indexed(run.searched, Columns(vs)) && ColumnsFit(Columns(vs), run.a)
    requires forall e :: e in run.row ==> run.row[e] < |es|
    requires forall e :: 0 <= e < |es| ==> (e in run.row <==> es[e].source in run.tr.reached)
    requires run.sol == Solve(run.a, run.p, run.l, f)
    requires MarksCorrected(run.searched, Columns(vs), run.sol.x, vs')
    requires RunsCorrected(es, run.row, run.sol.v, es', r.Ok?)
    requires (r.Ok? <==> forall e :: 0 <= e < |es| ==> e in run.row) && (r.Err? ==> r.error == OutOfRange)
    requires r.Ok? ==> r.value.net == NetValue(vs, es) &&
                       (r.value.rmse, r.value.sigma) == Precision(run.sol.v, |es|, FreeCount(vs), run.p, run.sol.atai, sqrt)
    ensures Adjusted(vs, es, unitWeight, f, sqrt, run, vs', es', r)
  {
  }

  /**
   * netAdjust past its checks: search, solve, write back, report. The search needs no
   * more than measured runs; a self-loop is adjusted like any other run.
   */
  method AdjustChecked(net: Net, unitWeight: real, f: Factorizations, sqrt: real -> real,
                       report: NetValue, columns: map<nat, nat>, seeds: seq<nat>, t: nat)
    returns (r: Result<NetReport>, ghost run: Run)
    requires Endpoints(net.vertices, net.edges) && Shaped(f) && Measured(net.edges)
    requires report == net.Value() && columns == Columns(net.vertices) && seeds == Seeds(net.vertices) && t == FreeCount(net.vertices)
    modifies net`vertices, net`edges
    ensures Adjusted(old(net.vertices), old(net.edges), unitWeight, f, sqrt, run, net.vertices, net.edges, r)
    ensures var vs, es := old(net.vertices), old(net.edges);
            r.Ok? <==> forall e :: 0 <= e < |es| ==> Reachable(es, Seeds(vs), es[e].source)
  {
    ghost var vs, es := net.vertices, net.edges;
    CheckedNetwork(vs, es);
    var eq, nim, valid, tr := Survey(net, unitWeight, columns, seeds, t);
    var sol := Solve(eq.a, eq.p, eq.l, f);
    run := Run(net.vertices, tr, nim.row, eq.a, eq.p, eq.l, sol);
    var o := WriteBack(net, columns, nim.row, sol);
    if o.Fail? {
      r := Err(o.error);
    } else {
      var (rmse, sigma) := Precision(sol.v, |net.edges|, t, eq.p, sol.atai, sqrt);
      r := Ok(NetReport(report, rmse, sigma));
    }
    AdjustedIntro(vs, es, unitWeight, f, sqrt, run, net.vertices, net.edges, r);
  }

  /**
   * netAdjust: index the free marks and check the network, then search from the control
   * points filling A, P and L, solve, raise every free mark by its correction and every run
   * by its residual, and report the network as it came in with the precision.
   */
  method NetAdjust(net: Net, unitWeight: real, f: Factorizations, sqrt: real -> real) returns (r: Result<NetReport>)
    requires Endpoints(net.vertices, net.edges) && Shaped(f)
    modifies net`vertices, net`edges
    ensures var vs, es := old(net.vertices), old(net.edges);
            Precheck(vs, es).Fail? ==> r == Err(Precheck(vs, es).error) && net.vertices == vs && net.edges == es
    ensures var vs, es := old(net.vertices), old(net.edges);
            Precheck(vs, es).Pass? ==> exists run :: Adjusted(vs, es, unitWeight, f, sqrt, run, net.vertices, net.edges, r)
    ensures var vs, es := old(net.vertices), old(net.edges);
            Precheck(vs, es).Pass? ==>
              (r.Ok? <==> forall e :: 0 <= e < |es| ==> Reachable(es, Seeds(vs), es[e].source)) &&
              (r.Err? ==> r.error == OutOfRange)
  {
    var report := net.Value();
    var columns, seeds, t := IndexVertices(net.vertices);
    if |net.edges| < t {
      return Err(InvalidArgument);
    }
    if HasSelfLoop(net.edges) {
      return Err(InvalidArgument);
    }
    if !Measured(net.edges) {
      return Err(NonFinite);
    }
    ghost var run;
    r, run := AdjustChecked(net, unitWeight, f, sqrt, report, columns, seeds, t);
  }

  /**
   * The checks netAdjust makes as written: enough runs, and (an addition of this model) every
   * run with a length. The self-loop check tests a flag that nothing raises, so it never fails.
   */
  function PrecheckAsWritten(vs: seq<VertexDs>, es: seq<Edge>): (o: Outcome)
    ensures o.Pass? <==> |es| >= FreeCount(vs) && Measured(es)
    ensures o.Fail? ==> (o.error == NonFinite <==> |es| >= FreeCount(vs))
  {
    if |es| < FreeCount(vs) then Fail(InvalidArgument)
    else if !Measured(es) then Fail(NonFinite)
    else Pass
  }

  /** The two sets of checks differ exactly on a network with enough runs and a self-loop. */
  lemma PrecheckAsWrittenDiffers(vs: seq<VertexDs>, es: seq<Edge>)
    ensures Precheck(vs, es) != PrecheckAsWritten(vs, es) <==> |es| >= FreeCount(vs) && HasSelfLoop(es)
    ensures Precheck(vs, es) != PrecheckAsWritten(vs, es) ==> Precheck(vs, es) == Fail(InvalidArgument)
  {
  }

  /**
   * netAdjust as written: a network with a self-loop passes the checks, and the self-loop
   * run's row of A gets +1 in its mark's column.
   */
  method NetAdjustAsWritten(net: Net, unitWeight: real, f: Factorizations, sqrt: real -> real) returns (r: Result<NetReport>)
    requires Endpoints(net.vertices, net.edges) && Shaped(f)
    modifies net`vertices, net`edges
    ensures var vs, es := old(net.vertices), old(net.edges);
            PrecheckAsWritten(vs, es).Fail? ==> r == Err(PrecheckAsWritten(vs, es).error) && net.vertices == vs && net.edges == es
    ensures var vs, es := old(net.vertices), old(net.edges);
            PrecheckAsWritten(vs, es).Pass? ==> exists run :: Adjusted(vs, es, unitWeight, f, sqrt, run, net.vertices, net.edges, r)
    ensures var vs, es := old(net.vertices), old(net.edges);
            PrecheckAsWritten(vs, es).Pass? ==>
              (r.Ok? <==> forall e :: 0 <= e < |es| ==> Reachable(es, Seeds(vs), es[e].source))
  {
    var report := net.Value();
    var columns, seeds, t := IndexVertices(net.vertices);
    if |net.edges| < t {
      return Err(InvalidArgument);
    }
    if !Measured(net.edges) {
      return Err(NonFinite);
    }
    ghost var run;
    r, run := AdjustChecked(net, unitWeight, f, sqrt, report, columns, seeds, t);
  }

  /** The marks of the first Findings row's network: control mark A and free mark B. */
  function SelfLoopMarks(): seq<VertexDs>
  {
    [MakeVertex("A", 10.0, true), MakeVertex("B", 0.0, false)]
  }

  /** Its runs: A to B, and B to itself. */
  function SelfLoopRuns(): seq<Edge>
  {
    [Edge(0, 1, EdgeDs("AB", 1.5, 2.0)), Edge(1, 1, EdgeDs("BB", 0.0, 1.0))]
  }

  /**
   * On that network the checks as written pass and every run leaves a mark reachable from A,
   * while the self-loop check rejects it.
   */
  lemma SelfLoopNetworkChecks()
    ensures Endpoints(SelfLoopMarks(), SelfLoopRuns())
    ensures PrecheckAsWritten(SelfLoopMarks(), SelfLoopRuns()) == Pass
    ensures Precheck(SelfLoopMarks(), SelfLoopRuns()) == Fail(InvalidArgument)
    ensures forall e :: 0 <= e < |SelfLoopRuns()| ==> Reachable(SelfLoopRuns(), Seeds(SelfLoopMarks()), SelfLoopRuns()[e].source)
  {
    var vs, es := SelfLoopMarks(), SelfLoopRuns();
    assert SeedsBefore(vs, 1) == [0];
    var seeds := Seeds(vs);
    assert seeds == [0];
    assert FreeBefore(vs, 1) == 0;
    assert FreeCount(vs) == 1;
    assert 0 in Within(es, seeds, 0) by {
      assert Within(es, seeds, 0) == Elements(seeds);
      assert seeds[0] in Elements(seeds);
    }
    assert 1 in Within(es, seeds, 1) by {
      assert es[0].source in Within(es, seeds, 0) && es[0].target == 1;
    }
    assert Reachable(es, seeds, 0) && Reachable(es, seeds, 1);
    assert es[1].source == es[1].target;
  }

  /**
   * The network of the first Findings row: netAdjust as written adjusts it; the self-loop
   * check rejects it.
   */
  method SelfLoopNetwork(unitWeight: real, f: Factorizations, sqrt: real -> real)
    returns (asWritten: Result<NetReport>, checked: Result<NetReport>)
    requires Shaped(f)
    ensures asWritten.Ok?
    ensures checked == Err(InvalidArgument)
  {
    SelfLoopNetworkChecks();
    var net := new Net(SelfLoopMarks(), SelfLoopRuns());
    asWritten := NetAdjustAsWritten(net, unitWeight, f, sqrt);
    var again := new Net(SelfLoopMarks(), SelfLoopRuns());
    checked := NetAdjust(again, unitWeight, f, sqrt);
  }
}
