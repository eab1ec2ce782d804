/**
 * The per-event record buffers of RootWriter and their flush into the ROOT
 * tree. The analysis manager is a ghost sink: the list of column names
 * created for the tree, the scalar column values last filled, and the rows
 * added so far.
 */
module Writer {
  import opened Common

  /** The two settings flags that gate what is written. */
  datatype Settings = Settings(minimalTreeForTransverseGammas: bool, beamTree: bool)

  /** One positron-emitter entry: the emitter's A and Z, where and when (in seconds) the positron was created. */
  datatype PositronEmitter = PositronEmitter(a: int, z: int, position: Vec3, time: real)

  /** One created nucleus: its A and Z and where it was created. */
  datatype Nucleus = Nucleus(a: int, z: int, position: Vec3)

  /** One escaping particle, as read from the post-step point and the track information; time in seconds. */
  datatype EscapingParticle = EscapingParticle(
    pdg: int, position: Vec3, theta: real, phi: real, energy: real, time: real, initialPosition: Vec3)

  /** CLHEP::pi and CLHEP::deg: angles are in radians, one degree is pi / 180. */
  const Pi: real := 3.14159265358979323846
  const Deg: real := Pi / 180.0

  /** What addEscapingParticle reads of a step's post-step point; angles in radians. */
  datatype StepPoint = StepPoint(position: Vec3, theta: real, phi: real, totalEnergy: real, globalTime: real)

  /** The beam scalar columns. */
  datatype Beam = Beam(position: Vec3, momentum: Vec3, energy: real)

  /** The six parallel positron-emitter vectors A, Z, x, y, z, t. */
  datatype PositronColumns = PositronColumns(
    A: seq<int>, Z: seq<int>, x: seq<real>, y: seq<real>, z: seq<real>, t: seq<real>)
  {
    predicate Aligned() {
      |Z| == |A| && |x| == |A| && |y| == |A| && |z| == |A| && |t| == |A|
    }

    /** The vectors read row-wise, one record per index. */
    function Records(): (rs: seq<PositronEmitter>)
      requires Aligned()
      ensures |rs| == |A|
    {
      seq(|A|, i requires 0 <= i < |A| => PositronEmitter(A[i], Z[i], Vec3(x[i], y[i], z[i]), t[i]))
    }

    /** push_back of one record on every vector. */
    function Push(e: PositronEmitter): (r: PositronColumns)
      ensures Aligned() ==> r.Aligned() && r.Records() == Records() + [e]
    {
      PositronColumns(A + [e.a], Z + [e.z], x + [e.position.x], y + [e.position.y], z + [e.position.z], t + [e.time])
    }
  }

  /** The five parallel nuclei vectors nucleiA, nucleiZ, nucleiXPos, nucleiYPos, nucleiZPos. */
  datatype NucleiColumns = NucleiColumns(A: seq<int>, Z: seq<int>, x: seq<real>, y: seq<real>, z: seq<real>)
  {
    predicate Aligned() {
      |Z| == |A| && |x| == |A| && |y| == |A| && |z| == |A|
    }

    function Records(): (rs: seq<Nucleus>)
      requires Aligned()
      ensures |rs| == |A|
    {
      seq(|A|, i requires 0 <= i < |A| => Nucleus(A[i], Z[i], Vec3(x[i], y[i], z[i])))
    }

    function Push(n: Nucleus): (r: NucleiColumns)
      ensures Aligned() ==> r.Aligned() && r.Records() == Records() + [n]
    {
      NucleiColumns(A + [n.a], Z + [n.z], x + [n.position.x], y + [n.position.y], z + [n.position.z])
    }
  }

  /** The eleven parallel escaping-particle vectors. */
  datatype EscapeColumns = EscapeColumns(
    pdg: seq<int>, x: seq<real>, y: seq<real>, z: seq<real>, theta: seq<real>, phi: seq<real>,
    e: seq<real>, time: seq<real>, initialX: seq<real>, initialY: seq<real>, initialZ: seq<real>)
  {
    predicate Aligned() {
      && |x| == |pdg| && |y| == |pdg| && |z| == |pdg| && |theta| == |pdg| && |phi| == |pdg|
      && |e| == |pdg| && |time| == |pdg| && |initialX| == |pdg| && |initialY| == |pdg| && |initialZ| == |pdg|
    }

    function Records(): (rs: seq<EscapingParticle>)
      requires Aligned()
      ensures |rs| == |pdg|
    {
      seq(|pdg|, i requires 0 <= i < |pdg| =>
        EscapingParticle(pdg[i], Vec3(x[i], y[i], z[i]), theta[i], phi[i], e[i], time[i],
                         Vec3(initialX[i], initialY[i], initialZ[i])))
    }

    function Push(p: EscapingParticle): (r: EscapeColumns)
      ensures Aligned() ==> r.Aligned() && r.Records() == Records() + [p]
    {
      EscapeColumns(pdg + [p.pdg], x + [p.position.x], y + [p.position.y], z + [p.position.z],
                    theta + [p.theta], phi + [p.phi], e + [p.energy], time + [p.time],
                    initialX + [p.initialPosition.x], initialY + [p.initialPosition.y],
                    initialZ + [p.initialPosition.z])
    }
  }

  const NoPositrons: PositronColumns := PositronColumns([], [], [], [], [], [])
  const NoNuclei: NucleiColumns := NucleiColumns([], [], [], [], [])
  const NoEscapes: EscapeColumns := EscapeColumns([], [], [], [], [], [], [], [], [], [], [])

  /**
   * The content of the tree's next row: the scalar columns as last filled and
   * the vector columns as the buffers hold them.
   */
  datatype EventRow = EventRow(
    eventID: int, primaryEnd: Vec3, beam: Beam,
    positrons: PositronColumns, nuclei: NucleiColumns, escapes: EscapeColumns)
  {
    predicate Aligned() {
      positrons.Aligned() && nuclei.Aligned() && escapes.Aligned()
    }

    /** Every buffer is empty. */
    predicate Empty() {
      positrons == NoPositrons && nuclei == NoNuclei && escapes == NoEscapes
    }
  }

  /** A fresh writer: zero scalars, empty buffers. */
  const InitialRow: EventRow := EventRow(0, Origin, Beam(Origin, Origin, 0.0), NoPositrons, NoNuclei, NoEscapes)

  /** Effect of setEventNumber on the next row. */
  function WithEventNumber(r: EventRow, s: Settings, eventNumber: int): (r': EventRow)
    ensures s.minimalTreeForTransverseGammas ==> r' == r
    ensures !s.minimalTreeForTransverseGammas ==> r'.eventID == eventNumber
    ensures r' == r.(eventID := r'.eventID)
  {
    if s.minimalTreeForTransverseGammas then r else r.(eventID := eventNumber)
  }

  /** Effect of setPrimaryEnd on the next row. */
  function WithPrimaryEnd(r: EventRow, s: Settings, pos: Vec3): (r': EventRow)
    ensures s.minimalTreeForTransverseGammas ==> r' == r
    ensures !s.minimalTreeForTransverseGammas ==> r'.primaryEnd == pos
    ensures r' == r.(primaryEnd := r'.primaryEnd)
  {
    if s.minimalTreeForTransverseGammas then r else r.(primaryEnd := pos)
  }

  /** Effect of addBeamProperties on the next row. */
  function WithBeamProperties(r: EventRow, s: Settings, pos: Vec3, mom: Vec3, energy: real): (r': EventRow)
    ensures !s.beamTree ==> r' == r
    ensures s.beamTree ==> r'.beam == Beam(pos, mom, energy)
    ensures r' == r.(beam := r'.beam)
  {
    if !s.beamTree then r else r.(beam := Beam(pos, mom, energy))
  }

  /**
   * Effect of addPositronEmitter: nothing in minimal mode or for a null
   * definition, otherwise exactly one record with the definition's A and Z.
   */
  function WithPositronEmitter(r: EventRow, s: Settings, def: Option<ParticleDef>, pos: Vec3, time: real): (r': EventRow)
    ensures r' == r.(positrons := r'.positrons)
    ensures s.minimalTreeForTransverseGammas || def.None? ==> r' == r
    ensures r.Aligned() ==> r'.Aligned()
    ensures r.Aligned() && !s.minimalTreeForTransverseGammas && def.Some? ==>
      r'.positrons.Records() == r.positrons.Records() + [PositronEmitter(def.value.baryonNumber, def.value.atomicNumber, pos, time / Second)]
  {
    if s.minimalTreeForTransverseGammas then r
    else if def.None? then r
    else r.(positrons := r.positrons.Push(PositronEmitter(def.value.baryonNumber, def.value.atomicNumber, pos, time / Second)))
  }

  /** Effect of addNuclei: nothing in minimal mode, otherwise exactly one record. */
  function WithNuclei(r: EventRow, s: Settings, def: ParticleDef, pos: Vec3): (r': EventRow)
    ensures r' == r.(nuclei := r'.nuclei)
    ensures s.minimalTreeForTransverseGammas ==> r' == r
    ensures r.Aligned() ==> r'.Aligned()
    ensures r.Aligned() && !s.minimalTreeForTransverseGammas ==>
      r'.nuclei.Records() == r.nuclei.Records() + [Nucleus(def.baryonNumber, def.atomicNumber, pos)]
  {
    if s.minimalTreeForTransverseGammas then r
    else r.(nuclei := r.nuclei.Push(Nucleus(def.baryonNumber, def.atomicNumber, pos)))
  }

  /**
   * Effect of addEscapingParticle: outside minimal mode every particle is
   * recorded; in minimal mode only photons whose direction has theta in
   * [85, 95] degrees.
   */
  function WithEscapingParticle(r: EventRow, s: Settings, pdg: int, post: StepPoint, info: TrackInformation): (r': EventRow)
    ensures r' == r.(escapes := r'.escapes)
    ensures r.Aligned() ==> r'.Aligned()
    ensures r.Aligned() ==>
      var rec := EscapingParticle(pdg, post.position, post.theta, post.phi, post.totalEnergy, post.globalTime / Second, info.initialPosition);
      var kept := !s.minimalTreeForTransverseGammas || (pdg == GammaPdg && 85.0 * Deg <= post.theta <= 95.0 * Deg);
      r'.escapes.Records() == r.escapes.Records() + (if kept then [rec] else [])
  {
    if s.minimalTreeForTransverseGammas && pdg != GammaPdg then r
    else if s.minimalTreeForTransverseGammas && (post.theta < 85.0 * Deg || post.theta > 95.0 * Deg) then r
    else
      r.(escapes := r.escapes.Push(
        EscapingParticle(pdg, post.position, post.theta, post.phi, post.totalEnergy, post.globalTime / Second, info.initialPosition)))
  }

  /** The buffers after fillTree: every vector empty, the scalar columns kept. */
  function Flushed(r: EventRow): (r': EventRow)
    ensures r'.Empty()
    ensures r'.eventID == r.eventID && r'.primaryEnd == r.primaryEnd && r'.beam == r.beam
  {
    r.(positrons := NoPositrons, nuclei := NoNuclei, escapes := NoEscapes)
  }

  /** The tree's columns, named as createHistograms names them (see Name). */
  datatype Column =
    | EventID | PrimaryEndX | PrimaryEndY | PrimaryEndZ
    | EmitterA | EmitterZ | EmitterX | EmitterY | EmitterZPos | EmitterT
    | NucleiA | NucleiZ | NucleiXPos | NucleiYPos | NucleiZPos
    | PdgEsc | XEsc | YEsc | ZEsc | ThetaEsc | PhiEsc | EEsc | TimeEsc | InitialXEsc | InitialYEsc | InitialZEsc
    | BeamX | BeamY | BeamZ | BeamPX | BeamPY | BeamPZ | BeamE
  {
    /** The ten escaping-particle kinematics columns xEsc ... initialZEsc. */
    predicate IsEscapeKinematics() {
      XEsc? || YEsc? || ZEsc? || ThetaEsc? || PhiEsc? || EEsc? || TimeEsc? || InitialXEsc? || InitialYEsc? || InitialZEsc?
    }

    /** The seven beam columns. */
    predicate IsBeam() {
      BeamX? || BeamY? || BeamZ? || BeamPX? || BeamPY? || BeamPZ? || BeamE?
    }

    /** eventID, primaryEnd, positron, nuclei and pdgEsc columns: absent from the minimal tree. */
    predicate IsFullTreeOnly() {
      !IsEscapeKinematics() && !IsBeam()
    }

    /** The column's name in the tree. */
    function Name(): string {
      match this
      case EventID => "eventID"
      case PrimaryEndX => "primaryEndX"
      case PrimaryEndY => "primaryEndY"
      case PrimaryEndZ => "primaryEndZ"
      case EmitterA => "A"
      case EmitterZ => "Z"
      case EmitterX => "x"
      case EmitterY => "y"
      case EmitterZPos => "z"
      case EmitterT => "t"
      case NucleiA => "nucleiA"
      case NucleiZ => "nucleiZ"
      case NucleiXPos => "nucleiXPos"
      case NucleiYPos => "nucleiYPos"
      case NucleiZPos => "nucleiZPos"
      case PdgEsc => "pdgEsc"
      case XEsc => "xEsc"
      case YEsc => "yEsc"
      case ZEsc => "zEsc"
      case ThetaEsc => "thetaEsc"
      case PhiEsc => "phiEsc"
      case EEsc => "eEsc"
      case TimeEsc => "timeEsc"
      case InitialXEsc => "initialXEsc"
      case InitialYEsc => "initialYEsc"
      case InitialZEsc => "initialZEsc"
      case BeamX => "beamX"
      case BeamY => "beamY"
      case BeamZ => "beamZ"
      case BeamPX => "beamPX"
      case BeamPY => "beamPY"
      case BeamPZ => "beamPZ"
      case BeamE => "beamE"
    }
  }

  const FullTreeColumns: seq<Column> :=
    [EventID, PrimaryEndX, PrimaryEndY, PrimaryEndZ,
     EmitterA, EmitterZ, EmitterX, EmitterY, EmitterZPos, EmitterT,
     NucleiA, NucleiZ, NucleiXPos, NucleiYPos, NucleiZPos,
     PdgEsc]
  const EscapeColumnNames: seq<Column> :=
    [XEsc, YEsc, ZEsc, ThetaEsc, PhiEsc, EEsc, TimeEsc, InitialXEsc, InitialYEsc, InitialZEsc]
  const BeamColumnNames: seq<Column> := [BeamX, BeamY, BeamZ, BeamPX, BeamPY, BeamPZ, BeamE]

  lemma FullTreeMembers(c: Column)
    ensures c in FullTreeColumns <==> c.IsFullTreeOnly()
  {
    assert forall i :: 0 <= i < |FullTreeColumns| ==> FullTreeColumns[i].IsFullTreeOnly();
  }

  lemma EscapeMembers(c: Column)
    ensures c in EscapeColumnNames <==> c.IsEscapeKinematics()
  {
  }

  lemma BeamMembers(c: Column)
    ensures c in BeamColumnNames <==> c.IsBeam()
  {
  }

  /**
   * The columns createHistograms declares for the tree, in order: the
   * escaping-particle kinematics always, the full-tree columns unless the tree
   * is minimal, the beam columns when the beam tree is on.
   */
  function Schema(s: Settings): (cols: seq<Column>)
    ensures forall c :: c in cols <==>
      || c.IsEscapeKinematics()
      || (!s.minimalTreeForTransverseGammas && c.IsFullTreeOnly())
      || (s.beamTree && c.IsBeam())
    ensures |cols| == 10 + (if s.minimalTreeForTransverseGammas then 0 else 16) + (if s.beamTree then 7 else 0)
  {
    var cols := (if s.minimalTreeForTransverseGammas then [] else FullTreeColumns)
                + EscapeColumnNames
                + (if s.beamTree then BeamColumnNames else []);
    forall c
      ensures c in cols <==>
        || c.IsEscapeKinematics()
        || (!s.minimalTreeForTransverseGammas && c.IsFullTreeOnly())
        || (s.beamTree && c.IsBeam())
    {
      FullTreeMembers(c);
      EscapeMembers(c);
      BeamMembers(c);
    }
    cols
  }

  /** Every row of `rs` has aligned vector groups. */
  predicate AllAligned(rs: seq<EventRow>) {
    forall i :: 0 <= i < |rs| ==> rs[i].Aligned()
  }

  lemma AllAlignedAppend(rs: seq<EventRow>, r: EventRow)
    requires AllAligned(rs) && r.Aligned()
    ensures AllAligned(rs + [r])
  {
  }

  /**
   * The writer. Each group of parallel std::vector members is one field
   * holding the group's columns: `positrons` holds AVec, ZVec, xVec, yVec,
   * zVec, tVec; `escaping` holds pdgEscaping ... initialZEscaping; `nuclei`
   * holds nucleiA ... nucleiZPos.
   */
  class RootWriter {
    const settings: Settings

    var positrons: PositronColumns
    var escaping: EscapeColumns
    var nuclei: NucleiColumns

    // the analysis manager: declared columns, scalar column values, rows added
    ghost var columns: seq<Column>
    ghost var eventID: int
    ghost var primaryEnd: Vec3
    ghost var beam: Beam
    ghost var rows: seq<EventRow>

    /** The row the next fillTree adds. */
    ghost function Pending(): EventRow
      reads this
    {
      EventRow(eventID, primaryEnd, beam, positrons, nuclei, escaping)
    }

    /** Every group of parallel vectors has one length, in the buffers and in every row written. */
    ghost predicate Valid()
      reads this
    {
      positrons.Aligned() && nuclei.Aligned() && escaping.Aligned() && AllAligned(rows)
    }

    constructor (settings: Settings)
      ensures this.settings == settings
      ensures Valid() && Pending() == InitialRow
      ensures columns == [] && rows == []
    {
      this.settings := settings;
      positrons, escaping, nuclei := NoPositrons, NoEscapes, NoNuclei;
      columns, eventID, primaryEnd, beam, rows := [], 0, Origin, Beam(Origin, Origin, 0.0), [];
    }

    /** Declares the tree's columns according to the settings. */
    method CreateHistograms()
      requires Valid()
      modifies this`columns
      ensures columns == Schema(settings)
    {
      columns := [];
      if !settings.minimalTreeForTransverseGammas {
        columns := columns + FullTreeColumns;
      }
      columns := columns + EscapeColumnNames;
      if settings.beamTree {
        columns := columns + BeamColumnNames;
      }
    }

    method SetEventNumber(eventNumber: int)
      requires Valid()
      modifies this`eventID
      ensures Valid()
      ensures Pending() == WithEventNumber(old(Pending()), settings, eventNumber)
      ensures rows == old(rows) && columns == old(columns)
    {
      if settings.minimalTreeForTransverseGammas {
        return;
      }
      eventID := eventNumber;
    }

    method SetPrimaryEnd(pos: Vec3)
      requires Valid()
      modifies this`primaryEnd
      ensures Valid()
      ensures Pending() == WithPrimaryEnd(old(Pending()), settings, pos)
      ensures rows == old(rows) && columns == old(columns)
    {
      if settings.minimalTreeForTransverseGammas {
        return;
      }
      primaryEnd := pos;
    }

    method AddPositronEmitter(def: Option<ParticleDef>, position: Vec3, time: real)
      requires Valid()
      modifies this`positrons
      ensures Valid()
      ensures Pending() == WithPositronEmitter(old(Pending()), settings, def, position, time)
      ensures rows == old(rows) && columns == old(columns)
    {
      if settings.minimalTreeForTransverseGammas {
        return;
      }
      if def.None? {
        return;
      }
      var a := def.value.baryonNumber;
      var z := def.value.atomicNumber;
      positrons := positrons.Push(PositronEmitter(a, z, position, time / Second));
    }

    method AddEscapingParticle(pdg: int, post: StepPoint, info: TrackInformation)
      requires Valid()
      modifies this`escaping
      ensures Valid()
      ensures Pending() == WithEscapingParticle(old(Pending()), settings, pdg, post, info)
      ensures rows == old(rows) && columns == old(columns)
    {
      if settings.minimalTreeForTransverseGammas && pdg != GammaPdg {
        return;
      }
      var theta := post.theta;
      if settings.minimalTreeForTransverseGammas && (theta < 85.0 * Deg || theta > 95.0 * Deg) {
        return;
      }
      escaping := escaping.Push(EscapingParticle(pdg, post.position, theta, post.phi, post.totalEnergy,
                                                 post.globalTime / Second, info.initialPosition));
    }

    method AddBeamProperties(pos: Vec3, mom: Vec3, energy: real)
      requires Valid()
      modifies this`beam
      ensures Valid()
      ensures Pending() == WithBeamProperties(old(Pending()), settings, pos, mom, energy)
      ensures rows == old(rows) && columns == old(columns)
    {
      if !settings.beamTree {
        return;
      }
      beam := Beam(pos, mom, energy);
    }

    method AddNuclei(def: ParticleDef, position: Vec3)
      requires Valid()
      modifies this`nuclei
      ensures Valid()
      ensures Pending() == WithNuclei(old(Pending()), settings, def, position)
      ensures rows == old(rows) && columns == old(columns)
    {
      if settings.minimalTreeForTransverseGammas {
        return;
      }
      nuclei := nuclei.Push(Nucleus(def.baryonNumber, def.atomicNumber, position));
    }

    /** Adds one row holding the current buffers and scalar values, then clears every buffer. */
    method FillTree()
      requires Valid()
      modifies this`rows, this`positrons, this`escaping, this`nuclei
      ensures Valid()
      ensures rows == old(rows) + [old(Pending())]
      ensures Pending() == Flushed(old(Pending()))
    {
      ghost var row := Pending();
      AllAlignedAppend(rows, row);
      rows := rows + [row];

      positrons := NoPositrons;
      escaping := NoEscapes;
      nuclei := NoNuclei;
    }
  }
}
