/**
 * Values shared by the simulation-side components: three-vectors, particle
 * definitions, the per-track user information and the insertion semantics of
 * a C++ std::map.
 */
module Common {

  /** A nullable reference (a `const G4ParticleDefinition*` that may be null). */
  datatype Option<T> = None | Some(value: T)

  /** A G4ThreeVector; `/CLHEP::mm` and `/CLHEP::MeV` are the identity (the internal units). */
  datatype Vec3 = Vec3(x: real, y: real, z: real)

  const Origin: Vec3 := Vec3(0.0, 0.0, 0.0)

  /** CLHEP::s: times are kept in nanoseconds, so `t / Second` is `t` in seconds. */
  const Second: real := 1000000000.0

  /** What the model needs of a G4ParticleDefinition. */
  datatype ParticleDef = ParticleDef(pdgEncoding: int, atomicNumber: int, baryonNumber: int)

  /** PDG code of the positron. */
  const PositronPdg: int := -11

  /** PDG code of the photon. */
  const GammaPdg: int := 22

  /**
   * The TrackInformation attached to a track when it starts: where it was
   * created, its parent's definition (None for the primary), its initial
   * kinetic energy and whether it was created inside the "Body" volume.
   */
  datatype TrackInformation = TrackInformation(
    initialPosition: Vec3,
    parentParticleDefinition: Option<ParticleDef>,
    initialEnergy: real,
    doComeFromBody: bool)

  /**
   * `m.insert({k, v})` of std::map: adds the pair only when `k` is not yet a
   * key; an existing entry is never overwritten.
   */
  function MapInsert<K, V>(m: map<K, V>, k: K, v: V): (r: map<K, V>)
    ensures r.Keys == m.Keys + {k}
    ensures k in m ==> r == m
    ensures k !in m ==> r[k] == v
    ensures forall j :: j in m ==> r[j] == m[j]
  {
    if k in m then m else m[k := v]
  }
}
