/**
 * The per-event particle lineage tracker (TrackingAction): three tables keyed
 * by track ID, filled when a track starts, updated when it ends and wiped at
 * the end of the event, and the records it hands to the RootWriter.
 */
module Tracking {
  import opened Common
  import opened Writer

  /** What the tracker remembers of a track (ParticleMemory). */
  datatype ParticleMemory = ParticleMemory(
    initialPosition: Vec3, finalPosition: Vec3,
    initialEnergy: real, finalEnergy: real,
    particleDefinition: ParticleDef)

  /** What the tracker reads of a G4Track. */
  datatype Track = Track(
    trackID: int, parentID: int, definition: ParticleDef,
    kineticEnergy: real, position: Vec3, globalTime: real, volumeName: string)

  /** The memory of a track that has just started: its final fields keep their zero defaults. */
  function InitialMemory(t: Track): ParticleMemory {
    ParticleMemory(t.position, Origin, t.kineticEnergy, 0.0, t.definition)
  }

  /**
   * parentChildrenRelationMap after a track starts: the track gets an (empty)
   * child set if it had none, the parent's set gains the track when the
   * parent ID is positive, and every other set is left alone.
   */
  function ChildrenAfterStart(pc: map<int, set<int>>, trackID: int, parentID: int): (r: map<int, set<int>>)
    requires parentID > 0 ==> parentID in pc || parentID == trackID
    ensures r.Keys == pc.Keys + {trackID}
    ensures trackID !in pc && trackID != parentID ==> r[trackID] == {}
    ensures parentID > 0 ==> r[parentID] == (if parentID in pc then pc[parentID] else {}) + {trackID}
    ensures forall q :: q in pc && (q != parentID || parentID <= 0) ==> r[q] == pc[q]
  {
    var inserted := MapInsert(pc, trackID, {});
    if parentID > 0 then inserted[parentID := inserted[parentID] + {trackID}] else inserted
  }

  /**
   * The writer calls made when a track starts: a nucleus record when its
   * atomic number is positive, then, for a positron, an emitter record
   * carrying the parent's A and Z. The writer drops both in minimal mode and
   * drops the emitter when there is no parent definition.
   */
  function StartEmissions(r: EventRow, s: Settings, t: Track, parentDef: Option<ParticleDef>): (r': EventRow)
    ensures r' == r.(positrons := r'.positrons, nuclei := r'.nuclei)
    ensures r.Aligned() ==> r'.Aligned()
    ensures r.Aligned() ==>
      r'.nuclei.Records() == r.nuclei.Records() +
        (if t.definition.atomicNumber > 0 && !s.minimalTreeForTransverseGammas
         then [Nucleus(t.definition.baryonNumber, t.definition.atomicNumber, t.position)] else [])
    ensures r.Aligned() ==>
      r'.positrons.Records() == r.positrons.Records() +
        (if t.definition.pdgEncoding == PositronPdg && !s.minimalTreeForTransverseGammas && parentDef.Some?
         then [PositronEmitter(parentDef.value.baryonNumber, parentDef.value.atomicNumber, t.position, t.globalTime / Second)]
         else [])
  {
    var afterNuclei := if t.definition.atomicNumber > 0 then WithNuclei(r, s, t.definition, t.position) else r;
    if t.definition.pdgEncoding == PositronPdg
    then WithPositronEmitter(afterNuclei, s, parentDef, t.position, t.globalTime)
    else afterNuclei
  }

  /**
   * The three tables share one key set, every parent that an `.at` lookup
   * needed is itself a key, child sets hold keys only, and `reg` numbers the
   * keys below `n` in registration order.
   */
  ghost predicate TablesValid(
    cp: map<int, int>, pc: map<int, set<int>>, mem: map<int, ParticleMemory>, reg: map<int, nat>, n: nat)
  {
    && pc.Keys == cp.Keys && mem.Keys == cp.Keys && reg.Keys == cp.Keys
    && (forall id :: id in reg ==> reg[id] < n)
    && (forall c :: c in cp && (cp[c] > 0 || c != 1) ==> cp[c] in cp)
    && (forall p :: p in pc ==> pc[p] <= cp.Keys)
  }

  /** The child sets are exactly the inverse of the child-to-parent table, for positive parent IDs. */
  ghost predicate LineageOf(cp: map<int, int>, pc: map<int, set<int>>) {
    forall p, c :: p in pc && c in cp ==> (c in pc[p] <==> p > 0 && cp[c] == p)
  }

  /** Every registered parent was registered before its child. */
  ghost predicate ParentsFirstOf(cp: map<int, int>, reg: map<int, nat>) {
    forall c :: c in cp && c in reg && cp[c] in reg ==> reg[cp[c]] < reg[c]
  }

  /** The registration order after a track starts: a new track gets the next number. */
  function RegisterAfterStart(reg: map<int, nat>, n: nat, trackID: int): (map<int, nat>, nat) {
    if trackID in reg then (reg, n) else (reg[trackID := n], n + 1)
  }

  /** The precondition the `.at` lookups of PreUserTrackingAction put on the tables. */
  predicate ParentKnown(cp: map<int, int>, trackID: int, parentID: int) {
    (parentID > 0 || trackID != 1) ==> parentID in cp || parentID == trackID
  }

  lemma StartKeepsTablesValid(
    cp: map<int, int>, pc: map<int, set<int>>, mem: map<int, ParticleMemory>, reg: map<int, nat>, n: nat,
    track: Track)
    requires TablesValid(cp, pc, mem, reg, n)
    requires ParentKnown(cp, track.trackID, track.parentID)
    ensures var (reg', n') := RegisterAfterStart(reg, n, track.trackID);
      TablesValid(MapInsert(cp, track.trackID, track.parentID),
                  ChildrenAfterStart(pc, track.trackID, track.parentID),
                  MapInsert(mem, track.trackID, InitialMemory(track)), reg', n')
  {
    var cp' := MapInsert(cp, track.trackID, track.parentID);
    var pc' := ChildrenAfterStart(pc, track.trackID, track.parentID);
    forall q | q in pc' ensures pc'[q] <= cp'.Keys {
      if q in pc && (q != track.parentID || track.parentID <= 0) {
        assert pc'[q] == pc[q];
      }
    }
  }

  lemma {:induction false} StartKeepsLineage(cp: map<int, int>, pc: map<int, set<int>>, trackID: int, parentID: int)
    requires pc.Keys == cp.Keys && LineageOf(cp, pc)
    requires forall q :: q in pc ==> pc[q] <= cp.Keys
    requires forall c :: c in cp && cp[c] > 0 ==> cp[c] in cp
    requires trackID !in cp
    requires parentID > 0 ==> parentID in cp || parentID == trackID
    ensures LineageOf(MapInsert(cp, trackID, parentID), ChildrenAfterStart(pc, trackID, parentID))
  {
    var cp' := MapInsert(cp, trackID, parentID);
    var pc' := ChildrenAfterStart(pc, trackID, parentID);
    forall p, c | p in pc' && c in cp' ensures c in pc'[p] <==> p > 0 && cp'[c] == p {
      if p == parentID && parentID > 0 {
        assert pc'[p] == (if p in pc then pc[p] else {}) + {trackID};
      } else if p in pc {
        assert pc'[p] == pc[p];
      } else {
        assert p == trackID && pc'[p] == {};
      }
    }
  }

  lemma StartKeepsParentsFirst(cp: map<int, int>, reg: map<int, nat>, n: nat, trackID: int, parentID: int)
    requires reg.Keys == cp.Keys && (forall id :: id in reg ==> reg[id] < n)
    requires forall c :: c in cp && cp[c] > 0 ==> cp[c] in cp
    requires ParentsFirstOf(cp, reg)
    requires trackID in cp || (parentID != trackID && trackID > 0)
    ensures ParentsFirstOf(MapInsert(cp, trackID, parentID), RegisterAfterStart(reg, n, trackID).0)
  {
    if trackID !in cp {
      var cp' := MapInsert(cp, trackID, parentID);
      var reg' := reg[trackID := n];
      forall c | c in cp' && c in reg' && cp'[c] in reg' ensures reg'[cp'[c]] < reg'[c] {
        if c != trackID {
          assert cp'[c] == cp[c] != trackID;
        }
      }
    }
  }

  /** The k-th ancestor of a registered track, following registered parents only. */
  function Ancestor(cp: map<int, int>, c: int, k: nat): Option<int>
    decreases k
  {
    if c !in cp then None
    else if k == 0 then Some(c)
    else if cp[c] in cp then Ancestor(cp, cp[c], k - 1)
    else None
  }

  /**
   * When parents are registered first, every proper ancestor was registered
   * strictly earlier, so no track is its own ancestor: the lineage has no cycle.
   */
  lemma {:induction false} NoCycles(cp: map<int, int>, reg: map<int, nat>, c: int, k: nat)
    requires reg.Keys == cp.Keys && ParentsFirstOf(cp, reg)
    requires k >= 1 && Ancestor(cp, c, k).Some?
    ensures c in reg && Ancestor(cp, c, k).value in reg
    ensures reg[Ancestor(cp, c, k).value] < reg[c]
    ensures Ancestor(cp, c, k) != Some(c)
    decreases k
  {
    if k > 1 {
      NoCycles(cp, reg, cp[c], k - 1);
    }
  }

  class TrackingAction {
    const rootWriter: RootWriter

    var childParentRelationMap: map<int, int>
    var parentChildrenRelationMap: map<int, set<int>>
    var particleMemoryMap: map<int, ParticleMemory>
    var printParticleMemoryMap: bool

    /** The order in which the current event's tracks were registered. */
    ghost var registration: map<int, nat>
    ghost var registered: nat

    ghost predicate Valid()
      reads this`childParentRelationMap, this`parentChildrenRelationMap, this`particleMemoryMap
      reads this`registration, this`registered
    {
      TablesValid(childParentRelationMap, parentChildrenRelationMap, particleMemoryMap, registration, registered)
    }

    ghost predicate Lineage()
      reads this`childParentRelationMap, this`parentChildrenRelationMap
    {
      LineageOf(childParentRelationMap, parentChildrenRelationMap)
    }

    ghost predicate ParentsFirst()
      reads this`childParentRelationMap, this`registration
    {
      ParentsFirstOf(childParentRelationMap, registration)
    }

    constructor (rootWriter: RootWriter)
      ensures this.rootWriter == rootWriter
      ensures Valid() && Lineage() && ParentsFirst()
      ensures childParentRelationMap == map[] && parentChildrenRelationMap == map[] && particleMemoryMap == map[]
      ensures !DoPrintParticleMemoryMap()
    {
      this.rootWriter := rootWriter;
      childParentRelationMap, parentChildrenRelationMap, particleMemoryMap := map[], map[], map[];
      printParticleMemoryMap := false;
      registration, registered := map[], 0;
    }

    function DoPrintParticleMemoryMap(): bool
      reads this`printParticleMemoryMap
    {
      printParticleMemoryMap
    }

    method SetPrintParticleMemoryMap(doPrint: bool)
      modifies this`printParticleMemoryMap
      ensures DoPrintParticleMemoryMap() == doPrint
    {
      printParticleMemoryMap := doPrint;
    }

    /**
     * Registers a starting track in the three tables (never overwriting an
     * entry), attaches its TrackInformation and reports nuclei and positrons
     * to the writer. The `.at` lookups need the parent to be registered when
     * the parent ID is positive and whenever the track is not track 1.
     */
    method PreUserTrackingAction(track: Track) returns (info: TrackInformation)
      requires Valid() && rootWriter.Valid()
      requires ParentKnown(childParentRelationMap, track.trackID, track.parentID)
      modifies this`childParentRelationMap, this`parentChildrenRelationMap, this`particleMemoryMap
      modifies this`registration, this`registered, rootWriter`positrons, rootWriter`nuclei
      ensures Valid() && rootWriter.Valid()
      ensures childParentRelationMap == MapInsert(old(childParentRelationMap), track.trackID, track.parentID)
      ensures parentChildrenRelationMap == ChildrenAfterStart(old(parentChildrenRelationMap), track.trackID, track.parentID)
      ensures particleMemoryMap == MapInsert(old(particleMemoryMap), track.trackID, InitialMemory(track))
      ensures old(Lineage()) && track.trackID !in old(childParentRelationMap) ==> Lineage()
      ensures old(ParentsFirst()) && (track.trackID in old(childParentRelationMap) || (track.parentID != track.trackID && track.trackID > 0)) ==>
        ParentsFirst()
      ensures info.initialPosition == track.position && info.initialEnergy == track.kineticEnergy
      ensures info.doComeFromBody == (track.volumeName == "Body")
      ensures info.parentParticleDefinition ==
        if track.trackID == 1 then None else Some(particleMemoryMap[track.parentID].particleDefinition)
      ensures rootWriter.Pending() ==
        StartEmissions(old(rootWriter.Pending()), rootWriter.settings, track, info.parentParticleDefinition)
      ensures rootWriter.rows == old(rootWriter.rows) && rootWriter.columns == old(rootWriter.columns)
    {
      var trackID := track.trackID;
      var parentID := track.parentID;

      RegisterTrack(track);

      var parentParticleDefinition := if trackID == 1 then None else Some(particleMemoryMap[parentID].particleDefinition);

      info := TrackInformation(track.position, parentParticleDefinition, track.kineticEnergy, false);
      if track.volumeName == "Body" {
        info := info.(doComeFromBody := true);
      }

      if track.definition.atomicNumber > 0 {
        rootWriter.AddNuclei(track.definition, track.position);
      }
      if track.definition.pdgEncoding == PositronPdg {
        rootWriter.AddPositronEmitter(parentParticleDefinition, track.position, track.globalTime);
      }
    }

    /** The three `insert`s of PreUserTrackingAction and the parent's child-set update. */
    method RegisterTrack(track: Track)
      requires Valid()
      requires ParentKnown(childParentRelationMap, track.trackID, track.parentID)
      modifies this`childParentRelationMap, this`parentChildrenRelationMap, this`particleMemoryMap
      modifies this`registration, this`registered
      ensures Valid()
      ensures childParentRelationMap == MapInsert(old(childParentRelationMap), track.trackID, track.parentID)
      ensures parentChildrenRelationMap == ChildrenAfterStart(old(parentChildrenRelationMap), track.trackID, track.parentID)
      ensures particleMemoryMap == MapInsert(old(particleMemoryMap), track.trackID, InitialMemory(track))
      ensures old(Lineage()) && track.trackID !in old(childParentRelationMap) ==> Lineage()
      ensures old(ParentsFirst()) && (track.trackID in old(childParentRelationMap) || (track.parentID != track.trackID && track.trackID > 0)) ==>
        ParentsFirst()
    {
      var trackID := track.trackID;
      var parentID := track.parentID;
      var cp, pc, mem := childParentRelationMap, parentChildrenRelationMap, particleMemoryMap;
      StartKeepsTablesValid(cp, pc, mem, registration, registered, track);
      if trackID !in cp && Lineage() {
        StartKeepsLineage(cp, pc, trackID, parentID);
      }
      if ParentsFirst() && (trackID in cp || (parentID != trackID && trackID > 0)) {
        StartKeepsParentsFirst(cp, registration, registered, trackID, parentID);
      }

      childParentRelationMap := MapInsert(cp, trackID, parentID);
      parentChildrenRelationMap := ChildrenAfterStart(pc, trackID, parentID);
      particleMemoryMap := MapInsert(mem, trackID, InitialMemory(track));
      registration, registered := RegisterAfterStart(registration, registered, trackID).0,
                                  RegisterAfterStart(registration, registered, trackID).1;
    }

    /** Records a finished track's final energy and position; the primary's end goes to the writer. */
    method PostUserTrackingAction(track: Track)
      requires Valid() && rootWriter.Valid()
      requires track.trackID in particleMemoryMap
      modifies this`particleMemoryMap, rootWriter
      ensures Valid() && rootWriter.Valid()
      ensures particleMemoryMap == old(particleMemoryMap)[track.trackID :=
        old(particleMemoryMap)[track.trackID].(finalEnergy := track.kineticEnergy, finalPosition := track.position)]
      ensures rootWriter.Pending() ==
        if track.trackID == 1 then WithPrimaryEnd(old(rootWriter.Pending()), rootWriter.settings, track.position)
        else old(rootWriter.Pending())
      ensures rootWriter.rows == old(rootWriter.rows) && rootWriter.columns == old(rootWriter.columns)
    {
      var trackID := track.trackID;

      particleMemoryMap := particleMemoryMap[trackID := particleMemoryMap[trackID].(finalEnergy := track.kineticEnergy)];
      particleMemoryMap := particleMemoryMap[trackID := particleMemoryMap[trackID].(finalPosition := track.position)];

      if trackID != 1 {
        return;
      }

      rootWriter.SetPrimaryEnd(track.position);
    }

    /** Wipes the event's tables and the print flag. */
    method Reset()
      modifies this
      ensures Valid() && Lineage() && ParentsFirst()
      ensures childParentRelationMap == map[] && parentChildrenRelationMap == map[] && particleMemoryMap == map[]
      ensures !DoPrintParticleMemoryMap()
    {
      childParentRelationMap := map[];
      parentChildrenRelationMap := map[];
      particleMemoryMap := map[];
      printParticleMemoryMap := false;
      registration := map[];
    }
  }
}
