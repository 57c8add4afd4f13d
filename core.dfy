/**
 * The entity model of the competence-mapping engine: the three TMBD axes,
 * the four ordered proficiency levels, competences and micro-credentials,
 * their dictionary renderings and the seed competences.
 */
module Core {
  import opened Wrappers

  /** Tripartite Model of Blue Dynamics: the closed set of axes, each with a one-letter code. */
  datatype Axis = Marine | Maritime | Oceanic {

    /** The enum value, used when a competence is rendered. */
    function Code(): string {
      match this
      case Marine => "M"
      case Maritime => "T"
      case Oceanic => "O"
    }

    /** The enum member's name, used as a key of the summary. */
    function Name(): string {
      match this
      case Marine => "MARINE"
      case Maritime => "MARITIME"
      case Oceanic => "OCEANIC"
    }
  }

  /** Reads an axis back from its code; the codes are distinct, so this inverts `Code`. */
  function AxisFromCode(code: string): (r: Option<Axis>)
    ensures r.Some? ==> r.value.Code() == code
    ensures forall a: Axis :: a.Code() == code ==> r == Some(a)
    ensures r.None? ==> code !in {"M", "T", "O"}
  {
    if code == "M" then Some(Marine)
    else if code == "T" then Some(Maritime)
    else if code == "O" then Some(Oceanic)
    else None
  }

  /** Proficiency levels; the rank is significant, it is averaged along a pathway. */
  datatype Level = Foundational | Intermediate | Advanced | Expert {

    /** The enum value: levels are ranked 1 to 4 in declaration order. */
    function Rank(): (r: nat)
      ensures 1 <= r <= |AllLevels|
      ensures AllLevels[r - 1] == this
    {
      match this
      case Foundational => 1
      case Intermediate => 2
      case Advanced => 3
      case Expert => 4
    }

    /** The enum member's name, used when a competence is rendered and as a key of reports. */
    function Name(): string {
      match this
      case Foundational => "FOUNDATIONAL"
      case Intermediate => "INTERMEDIATE"
      case Advanced => "ADVANCED"
      case Expert => "EXPERT"
    }
  }

  /** The levels in the order in which iterating over the enum visits them. */
  const AllLevels: seq<Level> := [Foundational, Intermediate, Advanced, Expert]

  /** Reads a level back from its name; the names are distinct, so this inverts `Name`. */
  function LevelFromName(name: string): (r: Option<Level>)
    ensures r.Some? ==> r.value.Name() == name
    ensures forall l: Level :: l.Name() == name ==> r == Some(l)
  {
    if name == "FOUNDATIONAL" then Some(Foundational)
    else if name == "INTERMEDIATE" then Some(Intermediate)
    else if name == "ADVANCED" then Some(Advanced)
    else if name == "EXPERT" then Some(Expert)
    else None
  }

  /** The ranks are 1, 2, 3, 4 and strictly increase along the declaration order. */
  lemma RanksIncrease()
    ensures forall i :: 0 <= i < |AllLevels| ==> AllLevels[i].Rank() == i + 1
    ensures forall i, j :: 0 <= i < j < |AllLevels| ==> AllLevels[i].Rank() < AllLevels[j].Rank()
  {
  }

  /** A value in a rendered record: a string, or a list of strings. */
  datatype Field = Str(s: string) | StrList(items: seq<string>)

  /** A rendered record, the counterpart of the source's `Dict[str, Any]`. */
  type Record = map<string, Field>

  datatype Competence = Competence(
    id: string,
    name: string,
    description: string,
    axis: Axis,
    level: Level,
    keywords: seq<string>)
  {
    /** `to_dict`: every field by its own name, the axis as its code and the level as its name. */
    function ToDict(): (r: Record)
      ensures r.Keys == {"id", "name", "description", "axis", "level", "keywords"}
      ensures r["id"] == Str(id) && r["name"] == Str(name) && r["description"] == Str(description)
      ensures r["keywords"] == StrList(keywords)
      ensures CompetenceFromDict(r) == Some(this)
    {
      map["id" := Str(id),
          "name" := Str(name),
          "description" := Str(description),
          "axis" := Str(axis.Code()),
          "level" := Str(level.Name()),
          "keywords" := StrList(keywords)]
    }
  }

  /** Reads a rendered competence back; `None` when a field is missing, of the wrong shape or an unknown code or name. */
  function CompetenceFromDict(d: Record): Option<Competence> {
    if && "id" in d && d["id"].Str?
       && "name" in d && d["name"].Str?
       && "description" in d && d["description"].Str?
       && "axis" in d && d["axis"].Str? && AxisFromCode(d["axis"].s).Some?
       && "level" in d && d["level"].Str? && LevelFromName(d["level"].s).Some?
       && "keywords" in d && d["keywords"].StrList?
    then
      Some(Competence(d["id"].s, d["name"].s, d["description"].s,
                      AxisFromCode(d["axis"].s).value, LevelFromName(d["level"].s).value,
                      d["keywords"].items))
    else
      None
  }

  datatype MicroCredential = MicroCredential(
    id: string,
    title: string,
    competences: seq<string>,
    description: string,
    sector: string)
  {
    /** `to_dict`: every field by its own name, the competence ids as the same list. */
    function ToDict(): (r: Record)
      ensures r.Keys == {"id", "title", "competences", "description", "sector"}
      ensures r["id"] == Str(id) && r["title"] == Str(title) && r["description"] == Str(description)
      ensures r["sector"] == Str(sector)
      ensures r["competences"].StrList? && r["competences"].items == competences
      ensures |r["competences"].items| == |competences|
      ensures CredentialFromDict(r) == Some(this)
    {
      map["id" := Str(id),
          "title" := Str(title),
          "competences" := StrList(competences),
          "description" := Str(description),
          "sector" := Str(sector)]
    }
  }

  /** Reads a rendered credential back; `None` when a field is missing or of the wrong shape. */
  function CredentialFromDict(d: Record): Option<MicroCredential> {
    if && "id" in d && d["id"].Str?
       && "title" in d && d["title"].Str?
       && "competences" in d && d["competences"].StrList?
       && "description" in d && d["description"].Str?
       && "sector" in d && d["sector"].Str?
    then
      Some(MicroCredential(d["id"].s, d["title"].s, d["competences"].items,
                           d["description"].s, d["sector"].s))
    else
      None
  }

  /** `create_sample_competences`: the seed data, one competence per axis. */
  function SampleCompetences(): (r: seq<Competence>)
    ensures |r| == 3
    ensures forall i, j :: 0 <= i < j < |r| ==> r[i].id != r[j].id
    ensures r[0].id == "comp_marine_001" && r[0].axis == Marine && r[0].level == Intermediate
    ensures r[1].id == "comp_maritime_001" && r[1].axis == Maritime && r[1].level == Advanced
    ensures r[2].id == "comp_oceanic_001" && r[2].axis == Oceanic && r[2].level == Advanced
  {
    [MarineSample(), MaritimeSample(), OceanicSample()]
  }

  // The seed texts, kept as named constants so that each literal is checked once.
  const MarineDescription: string :=
    "Comprehensive understanding of marine biophysical systems, species interactions, and ecosystem dynamics"
  const MaritimeDescription: string :=
    "Management of ports, fleets, grids, and maritime spatial planning (MSP) infrastructure"
  const OceanicDescription: string :=
    "Cross-border ocean governance integration, hydrosocial literacy, and transcorporeal responsibility"

  function MarineSample(): (c: Competence)
    ensures c.id == "comp_marine_001" && c.axis == Marine && c.level == Intermediate
  {
    Competence(
      "comp_marine_001",
      "Marine Ecosystem Understanding",
      MarineDescription,
      Marine,
      Intermediate,
      ["marine biology", "ecology", "biodiversity", "fisheries"])
  }

  function MaritimeSample(): (c: Competence)
    ensures c.id == "comp_maritime_001" && c.axis == Maritime && c.level == Advanced
  {
    Competence(
      "comp_maritime_001",
      "Maritime Infrastructure Management",
      MaritimeDescription,
      Maritime,
      Advanced,
      ["ports", "maritime spatial planning", "infrastructure", "fleet management"])
  }

  function OceanicSample(): (c: Competence)
    ensures c.id == "comp_oceanic_001" && c.axis == Oceanic && c.level == Advanced
  {
    Competence(
      "comp_oceanic_001",
      "Ocean Governance and Cooperation",
      OceanicDescription,
      Oceanic,
      Advanced,
      ["governance", "international cooperation", "policy", "sustainability"])
  }
}
