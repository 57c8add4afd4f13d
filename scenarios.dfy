/**
 * The demonstration run: the seed competences, the two credentials of the
 * demonstration, and what the gap analysis, the pathway and the summary give
 * on that state.
 */
module Scenarios {
  import opened Core
  import opened Text
  import opened Dicts
  import opened MapperSpec
  import opened Mapper

  const MarineId: string := "comp_marine_001"
  const MaritimeId: string := "comp_maritime_001"
  const OceanicId: string := "comp_oceanic_001"
  const OffshoreSector: string := "offshore-energy"
  const GovernanceSector: string := "governance"

  const OffshoreTitle: string := "Offshore Energy Operations Specialist"
  const OffshoreDescription: string := "Micro-credential for professionals in offshore renewable energy"
  const GovernanceTitle: string := "Ocean Governance Practitioner"
  const GovernanceDescription: string := "Micro-credential for ocean governance and policy professionals"

  /** The offshore-energy credential: one intermediate and one advanced competence, average 5/2. */
  function Offshore(): MicroCredential {
    MicroCredential("cred_offshore_001", OffshoreTitle, [MarineId, MaritimeId], OffshoreDescription, OffshoreSector)
  }

  /** The governance credential: one advanced competence, average 3. */
  function Governance(): MicroCredential {
    MicroCredential("cred_ocean_gov_001", GovernanceTitle, [OceanicId], GovernanceDescription, GovernanceSector)
  }

  /** Three distinct keys put into an empty dict, in order. */
  lemma PutThree<V>(a: string, b: string, c: string, x: V, y: V, z: V)
    requires a != b && a != c && b != c
    ensures Empty<V>().Put(a, x).Put(b, y).Put(c, z) == Dict([a, b, c], map[a := x, b := y, c := z])
  {
    var d := Empty<V>().Put(a, x).Put(b, y);
    assert d == Dict([a, b], map[a := x, b := y]);
  }

  /** The values of a three-key dict, in key order. */
  lemma ValuesOfThree<V>(a: string, b: string, c: string, x: V, y: V, z: V)
    requires a != b && a != c && b != c
    ensures Dict([a, b, c], map[a := x, b := y, c := z]).Values() == [x, y, z]
  {
  }

  /** Two distinct keys put into an empty dict, in order. */
  lemma PutTwo<V>(a: string, b: string, x: V, y: V)
    requires a != b
    ensures Empty<V>().Put(a, x).Put(b, y) == Dict([a, b], map[a := x, b := y])
    ensures Dict([a, b], map[a := x, b := y]).Values() == [x, y]
  {
  }

  /** The competence store after the three seed competences are added in order. */
  function SeedCompetences(): (d: Dict<Competence>)
    ensures d.Valid()
  {
    Empty<Competence>().Put(MarineId, MarineSample()).Put(MaritimeId, MaritimeSample()).Put(OceanicId, OceanicSample())
  }

  /** The three seed competences, each under its own id, in the order they were added. */
  lemma SeedCompetenceStore()
    ensures SeedCompetences() ==
      Dict([MarineId, MaritimeId, OceanicId],
           map[MarineId := MarineSample(), MaritimeId := MaritimeSample(), OceanicId := OceanicSample()])
    ensures SeedCompetences().Values() == SampleCompetences()
  {
    PutThree(MarineId, MaritimeId, OceanicId, MarineSample(), MaritimeSample(), OceanicSample());
    ValuesOfThree(MarineId, MaritimeId, OceanicId, MarineSample(), MaritimeSample(), OceanicSample());
  }

  /** The credential store after the two credentials are added in order. */
  function SeedCredentials(): (d: Dict<MicroCredential>)
    ensures d.Valid()
  {
    Empty<MicroCredential>().Put(Offshore().id, Offshore()).Put(Governance().id, Governance())
  }

  /** The two credentials, each under its own id, in the order they were added. */
  lemma SeedCredentialStore()
    ensures SeedCredentials() ==
      Dict([Offshore().id, Governance().id], map[Offshore().id := Offshore(), Governance().id := Governance()])
    ensures SeedCredentials().Values() == [Offshore(), Governance()]
  {
    PutTwo(Offshore().id, Governance().id, Offshore(), Governance());
  }

  /** The seed competences resolve, at their own levels. */
  lemma SeedLevels()
    ensures MarineId in SeedCompetences().entries && SeedCompetences().entries[MarineId].level == Intermediate
    ensures MaritimeId in SeedCompetences().entries && SeedCompetences().entries[MaritimeId].level == Advanced
    ensures OceanicId in SeedCompetences().entries && SeedCompetences().entries[OceanicId].level == Advanced
  {
    SeedCompetenceStore();
  }

  /** The state the demonstration builds: every seed competence, then both credentials. */
  method Seeded() returns (m: CompetenceMapper)
    ensures fresh(m) && m.Valid()
    ensures m.competences == SeedCompetences() && m.credentials == SeedCredentials()
  {
    m := new CompetenceMapper();
    var seeds := SampleCompetences();
    m.AddCompetence(seeds[0]);
    m.AddCompetence(seeds[1]);
    m.AddCompetence(seeds[2]);
    m.AddCredentials(Offshore());
    m.AddCredentials(Governance());
  }

  /** A sector matching offshore energy needs the marine and the maritime competence. */
  lemma OffshoreRequires(sector: string)
    requires SameSector(sector, OffshoreSector)
    ensures RequiredIds(SeedCredentials().Values(), sector) == {MarineId, MaritimeId}
  {
    SeedCredentialStore();
    assert |Lower(GovernanceSector)| != |Lower(OffshoreSector)|;
  }

  /**
   * Holding the marine competence, a newcomer to offshore energy, however the
   * sector is capitalised, misses only the advanced maritime one.
   */
  method OffshoreGaps(sector: string) returns (r: GapReport)
    requires SameSector(sector, OffshoreSector)
    ensures r.available == {MarineId} && r.missing == {MaritimeId}
    ensures r.byLevel == map["ADVANCED" := {MaritimeId}]
  {
    var m := Seeded();
    r := m.AnalyzeCompetenceGaps([MarineId], sector);
    OffshoreReport(r, sector, m.credentials.Values(), m.competences.entries);
  }

  lemma OffshoreReport(r: GapReport, sector: string, creds: seq<MicroCredential>, comps: map<string, Competence>)
    requires SameSector(sector, OffshoreSector)
    requires creds == SeedCredentials().Values() && comps == SeedCompetences().entries
    requires forall id :: id in r.available <==> id in [MarineId] && id in RequiredIds(creds, sector)
    requires forall id :: id in r.missing <==> id in RequiredIds(creds, sector) && id !in [MarineId]
    requires r.byLevel == MissingByLevel(comps, r.missing)
    ensures r.available == {MarineId} && r.missing == {MaritimeId}
    ensures r.byLevel == map["ADVANCED" := {MaritimeId}]
  {
    OffshoreRequires(sector);
    HoldingOneOfTwo(r, MarineId, MaritimeId, RequiredIds(creds, sector));
    MaritimeMissing(r.byLevel, r.missing);
  }

  /** Missing only the maritime competence lists it under the advanced level. */
  lemma MaritimeMissing(byLevel: map<string, set<string>>, missing: set<string>)
    requires missing == {MaritimeId}
    requires byLevel == MissingByLevel(SeedCompetences().entries, missing)
    ensures byLevel == map["ADVANCED" := {MaritimeId}]
  {
    SeedLevels();
    SingleMissing(SeedCompetences().entries, MaritimeId);
  }

  /** Holding one of two required ids: that one is available and the other is missing. */
  lemma HoldingOneOfTwo(r: GapReport, a: string, b: string, required: set<string>)
    requires a != b && required == {a, b}
    requires forall id :: id in r.available <==> id in [a] && id in required
    requires forall id :: id in r.missing <==> id in required && id !in [a]
    ensures r.available == {a} && r.missing == {b}
  {
  }

  /** The demonstration's sector, upper-cased, is the same sector. */
  lemma UpperCaseOffshore()
    ensures SameSector("OFFSHORE-ENERGY", OffshoreSector)
  {
    LowerOfUpperVariant();
  }

  /** A sector no credential carries: nothing is required, so nothing is available or missing. */
  method UnknownSectorGaps(available: seq<string>, sector: string) returns (r: GapReport)
    requires !SameSector(sector, OffshoreSector) && !SameSector(sector, GovernanceSector)
    ensures r.available == {} && r.missing == {} && r.byLevel == map[]
  {
    var m := Seeded();
    r := m.AnalyzeCompetenceGaps(available, sector);
    UnknownReport(r, available, sector, m.credentials.Values(), m.competences.entries);
  }

  lemma UnknownReport(r: GapReport, available: seq<string>, sector: string,
                      creds: seq<MicroCredential>, comps: map<string, Competence>)
    requires !SameSector(sector, OffshoreSector) && !SameSector(sector, GovernanceSector)
    requires creds == SeedCredentials().Values()
    requires forall id :: id in r.available <==> id in available && id in RequiredIds(creds, sector)
    requires forall id :: id in r.missing <==> id in RequiredIds(creds, sector) && id !in available
    requires r.byLevel == MissingByLevel(comps, r.missing)
    ensures r.available == {} && r.missing == {} && r.byLevel == map[]
  {
    SeedCredentialStore();
    RequiredIdsOfUnknownSector(creds, sector);
    assert r.missing == {};
    NothingMissing(comps);
  }

  lemma NothingMissing(comps: map<string, Competence>)
    ensures MissingByLevel(comps, {}) == map[]
  {
    var m := MissingByLevel(comps, {});
    forall l: Level ensures l.Name() !in m {
      assert MissingAtLevel(comps, {}, l) == {};
    }
    assert Foundational.Name() !in m && Intermediate.Name() !in m;
    assert Advanced.Name() !in m && Expert.Name() !in m;
  }

  /** The averages of the demonstration: resolvable ranks over all references. */
  lemma SeedAverages()
    ensures AverageLevel(SeedCompetences().entries, Offshore()) == 5.0 / 2.0
    ensures AverageLevel(SeedCompetences().entries, Governance()) == 3.0
  {
    SeedLevels();
    AverageOfTwo(SeedCompetences().entries, Offshore());
    AverageOfOne(SeedCompetences().entries, Governance());
  }

  /** The demonstration's pathway order satisfies the pathway specification. */
  lemma SeedPathway()
    ensures IsPathway(SeedCompetences().entries, SeedCredentials(), [Offshore(), Governance()])
  {
    SeedAverages();
    SeedCredentialStore();
    PairIsPathway(SeedCompetences().entries, SeedCredentials(), Offshore(), Governance());
  }

  /** Offshore energy (average 5/2) comes before governance (average 3), whatever the starting level. */
  method DemonstrationPathway(startingLevel: Level) returns (p: seq<MicroCredential>)
    ensures p == [Offshore(), Governance()]
  {
    var m := Seeded();
    p := m.SuggestCredentialPathway(startingLevel);
    SeedPathway();
    PathwayIsUnique(SeedCompetences().entries, SeedCredentials(), p, [Offshore(), Governance()]);
  }

  /** The sectors of the stored credentials, as written. */
  lemma SeedSectors(sectors: set<string>)
    requires forall sector :: sector in sectors <==>
      exists k :: k in SeedCredentials().entries && SeedCredentials().entries[k].sector == sector
    ensures sectors == {OffshoreSector, GovernanceSector}
  {
    SeedCredentialStore();
    var d := SeedCredentials();
    assert d.entries[Offshore().id].sector == OffshoreSector;
    assert d.entries[Governance().id].sector == GovernanceSector;
  }

  lemma SeedCounts()
    ensures AxisCounts(SampleCompetences()) == map["MARINE" := 1, "MARITIME" := 1, "OCEANIC" := 1]
    ensures LevelCounts(SampleCompetences()) ==
      map["FOUNDATIONAL" := 0, "INTERMEDIATE" := 1, "ADVANCED" := 2, "EXPERT" := 0]
  {
    var cs := SampleCompetences();
    assert ByAxis(cs, Marine) == [cs[0]];
    assert ByAxis(cs, Maritime) == [cs[1]];
    assert ByAxis(cs, Oceanic) == [cs[2]];
    assert ByLevel(cs, Foundational) == [];
    assert ByLevel(cs, Intermediate) == [cs[0]];
    assert ByLevel(cs, Advanced) == [cs[1], cs[2]];
    assert ByLevel(cs, Expert) == [];
  }

  /** One marine seed competence, the marine one; two advanced ones, the maritime and the oceanic. */
  lemma SeedFilters()
    ensures ByAxis(SampleCompetences(), Marine) == [MarineSample()]
    ensures MarineSample().name == "Marine Ecosystem Understanding"
    ensures ByLevel(SampleCompetences(), Advanced) == [MaritimeSample(), OceanicSample()]
  {
    var s := SampleCompetences();
    assert s[1..][1..][1..] == [];
  }

  /** Three competences, one per axis, one intermediate and two advanced; two sectors. */
  method DemonstrationSummary() returns (s: Summary)
    ensures s.totalCompetences == 3 && s.totalCredentials == 2
    ensures s.competencesByAxis == map["MARINE" := 1, "MARITIME" := 1, "OCEANIC" := 1]
    ensures s.competencesByLevel == map["FOUNDATIONAL" := 0, "INTERMEDIATE" := 1, "ADVANCED" := 2, "EXPERT" := 0]
    ensures s.sectors == {OffshoreSector, GovernanceSector}
  {
    var m := Seeded();
    s := m.GetSummary();
    SummaryReport(s, m.competences, m.credentials);
  }

  lemma SummaryReport(s: Summary, comps: Dict<Competence>, creds: Dict<MicroCredential>)
    requires comps == SeedCompetences() && creds == SeedCredentials()
    requires s.totalCompetences == |comps.entries| && s.totalCredentials == |creds.entries|
    requires s.competencesByAxis == AxisCounts(comps.Values())
    requires s.competencesByLevel == LevelCounts(comps.Values())
    requires forall sector :: sector in s.sectors <==>
      exists k :: k in creds.entries && creds.entries[k].sector == sector
    ensures s.totalCompetences == 3 && s.totalCredentials == 2
    ensures s.competencesByAxis == map["MARINE" := 1, "MARITIME" := 1, "OCEANIC" := 1]
    ensures s.competencesByLevel == map["FOUNDATIONAL" := 0, "INTERMEDIATE" := 1, "ADVANCED" := 2, "EXPERT" := 0]
    ensures s.sectors == {OffshoreSector, GovernanceSector}
  {
    SeedCompetenceStore();
    SeedCredentialStore();
    assert comps.Len() == 3 && creds.Len() == 2;
    SeedCounts();
    SeedSectors(s.sectors);
  }

  /** Adding the seed competences a second time replaces them and the store stays at three. */
  method ReAddingKeepsSize() returns (n: nat)
    ensures n == 3
  {
    var m := Seeded();
    var seeds := SampleCompetences();
    m.AddCompetence(seeds[0]);
    m.AddCompetence(seeds[1]);
    m.AddCompetence(seeds[2]);
    SeedCompetenceStore();
    n := m.competences.Len();
  }
}
