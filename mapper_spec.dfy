/**
 * The pure parts of the competence mapper and the reference definitions its
 * methods are proved against: the axis and level filters, the sector union,
 * the per-level breakdown of a gap, the average level of a credential and the
 * order a credential pathway must have.
 */
module MapperSpec {
  import opened Core
  import opened Text
  import opened Dicts

  // ---------------------------------------------------------------------------
  // Filters: `[c for c in competences.values() if ...]`

  /** The competences of `cs` on axis `a`, in the order of `cs`. */
  function ByAxis(cs: seq<Competence>, a: Axis): (r: seq<Competence>)
    ensures |r| <= |cs|
  {
    if cs == [] then []
    else if cs[0].axis == a then [cs[0]] + ByAxis(cs[1..], a)
    else ByAxis(cs[1..], a)
  }

  /** The axis filter keeps exactly the competences on that axis. */
  lemma {:induction false} ByAxisMembers(cs: seq<Competence>, a: Axis)
    ensures forall c :: c in ByAxis(cs, a) <==> c in cs && c.axis == a
  {
    if cs != [] {
      ByAxisMembers(cs[1..], a);
      assert cs == [cs[0]] + cs[1..];
    }
  }

  /** Filtering keeps order: the filter of a concatenation is the concatenation of the filters. */
  lemma {:induction false} ByAxisAppend(s: seq<Competence>, t: seq<Competence>, a: Axis)
    ensures ByAxis(s + t, a) == ByAxis(s, a) + ByAxis(t, a)
  {
    if s == [] {
      assert s + t == t;
    } else {
      assert (s + t)[1..] == s[1..] + t;
      ByAxisAppend(s[1..], t, a);
    }
  }

  /** The three axis filters split the competences: every one lands in exactly one of them. */
  lemma {:induction false} AxesPartition(cs: seq<Competence>)
    ensures multiset(ByAxis(cs, Marine)) + multiset(ByAxis(cs, Maritime)) + multiset(ByAxis(cs, Oceanic))
            == multiset(cs)
    ensures |ByAxis(cs, Marine)| + |ByAxis(cs, Maritime)| + |ByAxis(cs, Oceanic)| == |cs|
  {
    AxesSplit(cs);
    assert |multiset(ByAxis(cs, Marine)) + multiset(ByAxis(cs, Maritime)) + multiset(ByAxis(cs, Oceanic))|
           == |ByAxis(cs, Marine)| + |ByAxis(cs, Maritime)| + |ByAxis(cs, Oceanic)|;
  }

  lemma {:induction false} AxesSplit(cs: seq<Competence>)
    ensures multiset(ByAxis(cs, Marine)) + multiset(ByAxis(cs, Maritime)) + multiset(ByAxis(cs, Oceanic))
            == multiset(cs)
  {
    if cs != [] {
      var c, rest := cs[0], cs[1..];
      AxesSplit(rest);
      assert multiset(cs) == multiset{c} + multiset(rest) by { assert cs == [c] + rest; }
      ByAxisStep(cs, Marine);
      ByAxisStep(cs, Maritime);
      ByAxisStep(cs, Oceanic);
      var m, t, o := multiset(ByAxis(rest, Marine)), multiset(ByAxis(rest, Maritime)), multiset(ByAxis(rest, Oceanic));
      match c.axis
      case Marine => assert (multiset{c} + m) + t + o == multiset{c} + (m + t + o);
      case Maritime => assert m + (multiset{c} + t) + o == multiset{c} + (m + t + o);
      case Oceanic => assert m + t + (multiset{c} + o) == multiset{c} + (m + t + o);
    }
  }

  /** One step of the axis filter, as multisets. */
  lemma ByAxisStep(cs: seq<Competence>, a: Axis)
    requires cs != []
    ensures multiset(ByAxis(cs, a)) ==
      (if cs[0].axis == a then multiset{cs[0]} else multiset{}) + multiset(ByAxis(cs[1..], a))
  {
  }

  /** The competences of `cs` at level `l`, in the order of `cs`. */
  function ByLevel(cs: seq<Competence>, l: Level): (r: seq<Competence>)
    ensures |r| <= |cs|
  {
    if cs == [] then []
    else if cs[0].level == l then [cs[0]] + ByLevel(cs[1..], l)
    else ByLevel(cs[1..], l)
  }

  /** The level filter keeps exactly the competences at that level. */
  lemma {:induction false} ByLevelMembers(cs: seq<Competence>, l: Level)
    ensures forall c :: c in ByLevel(cs, l) <==> c in cs && c.level == l
  {
    if cs != [] {
      ByLevelMembers(cs[1..], l);
      assert cs == [cs[0]] + cs[1..];
    }
  }

  /** Filtering keeps order: the filter of a concatenation is the concatenation of the filters. */
  lemma {:induction false} ByLevelAppend(s: seq<Competence>, t: seq<Competence>, l: Level)
    ensures ByLevel(s + t, l) == ByLevel(s, l) + ByLevel(t, l)
  {
    if s == [] {
      assert s + t == t;
    } else {
      assert (s + t)[1..] == s[1..] + t;
      ByLevelAppend(s[1..], t, l);
    }
  }

  /** The four level filters split the competences: every one lands in exactly one of them. */
  lemma {:induction false} LevelsPartition(cs: seq<Competence>)
    ensures multiset(ByLevel(cs, Foundational)) + multiset(ByLevel(cs, Intermediate))
            + multiset(ByLevel(cs, Advanced)) + multiset(ByLevel(cs, Expert))
            == multiset(cs)
    ensures |ByLevel(cs, Foundational)| + |ByLevel(cs, Intermediate)|
            + |ByLevel(cs, Advanced)| + |ByLevel(cs, Expert)| == |cs|
  {
    LevelsSplit(cs);
    assert |multiset(ByLevel(cs, Foundational)) + multiset(ByLevel(cs, Intermediate))
            + multiset(ByLevel(cs, Advanced)) + multiset(ByLevel(cs, Expert))|
           == |ByLevel(cs, Foundational)| + |ByLevel(cs, Intermediate)|
            + |ByLevel(cs, Advanced)| + |ByLevel(cs, Expert)|;
  }

  lemma {:induction false} LevelsSplit(cs: seq<Competence>)
    ensures multiset(ByLevel(cs, Foundational)) + multiset(ByLevel(cs, Intermediate))
            + multiset(ByLevel(cs, Advanced)) + multiset(ByLevel(cs, Expert))
            == multiset(cs)
  {
    if cs != [] {
      var c, rest := cs[0], cs[1..];
      LevelsSplit(rest);
      assert multiset(cs) == multiset{c} + multiset(rest) by { assert cs == [c] + rest; }
      ByLevelStep(cs, Foundational);
      ByLevelStep(cs, Intermediate);
      ByLevelStep(cs, Advanced);
      ByLevelStep(cs, Expert);
      var f, i, a, e := multiset(ByLevel(rest, Foundational)), multiset(ByLevel(rest, Intermediate)),
                        multiset(ByLevel(rest, Advanced)), multiset(ByLevel(rest, Expert));
      match c.level
      case Foundational => assert (multiset{c} + f) + i + a + e == multiset{c} + (f + i + a + e);
      case Intermediate => assert f + (multiset{c} + i) + a + e == multiset{c} + (f + i + a + e);
      case Advanced => assert f + i + (multiset{c} + a) + e == multiset{c} + (f + i + a + e);
      case Expert => assert f + i + a + (multiset{c} + e) == multiset{c} + (f + i + a + e);
    }
  }

  /** One step of the level filter, as multisets. */
  lemma ByLevelStep(cs: seq<Competence>, l: Level)
    requires cs != []
    ensures multiset(ByLevel(cs, l)) ==
      (if cs[0].level == l then multiset{cs[0]} else multiset{}) + multiset(ByLevel(cs[1..], l))
  {
  }

  // ---------------------------------------------------------------------------
  // Sectors

  /** Sector names compare after lower-casing both sides. */
  predicate SameSector(a: string, b: string) {
    Lower(a) == Lower(b)
  }

  /** The credentials of `creds` whose sector matches `sector`, in the order of `creds`. */
  function SectorCredentials(creds: seq<MicroCredential>, sector: string): (r: seq<MicroCredential>)
    ensures |r| <= |creds|
    ensures forall cr :: cr in r <==> cr in creds && SameSector(cr.sector, sector)
  {
    if creds == [] then []
    else (if SameSector(creds[0].sector, sector) then [creds[0]] else [])
         + SectorCredentials(creds[1..], sector)
  }

  /** Every competence id referenced by one of `creds`, each once. */
  function IdsOf(creds: seq<MicroCredential>): (r: set<string>)
    ensures forall id :: id in r <==> exists cr :: cr in creds && id in cr.competences
  {
    if creds == [] then {}
    else
      var last := creds[|creds| - 1];
      IdsOf(creds[..|creds| - 1]) + set id | id in last.competences
  }

  /** Taking one more credential into account adds its ids. */
  lemma IdsOfPrefix(creds: seq<MicroCredential>, i: nat)
    requires i < |creds|
    ensures IdsOf(creds[..i + 1]) == IdsOf(creds[..i]) + set id | id in creds[i].competences
  {
    assert creds[..i + 1][..i] == creds[..i];
  }

  /** Every competence id referenced by a credential of the sector, each once. */
  function RequiredIds(creds: seq<MicroCredential>, sector: string): (r: set<string>)
    ensures forall id :: id in r <==>
      exists cr :: cr in creds && SameSector(cr.sector, sector) && id in cr.competences
  {
    set cr, id | cr in creds && SameSector(cr.sector, sector) && id in cr.competences :: id
  }

  /** The sector lookup depends on the sector name only through its lower-case form. */
  lemma RequiredIdsIgnoreCase(creds: seq<MicroCredential>, sector: string)
    ensures RequiredIds(creds, sector) == RequiredIds(creds, Lower(sector))
  {
    LowerIdempotent(sector);
  }

  /** Collecting the ids of the sector's credentials one credential at a time gives the required ids. */
  lemma SectorIdsAreRequired(creds: seq<MicroCredential>, sector: string)
    ensures IdsOf(SectorCredentials(creds, sector)) == RequiredIds(creds, sector)
  {
  }

  /** A sector no credential carries requires nothing. */
  lemma RequiredIdsOfUnknownSector(creds: seq<MicroCredential>, sector: string)
    requires forall cr :: cr in creds ==> !SameSector(cr.sector, sector)
    ensures RequiredIds(creds, sector) == {}
  {
  }

  // ---------------------------------------------------------------------------
  // Gap analysis

  /** The names the per-level breakdown may use as keys. */
  const LevelNames: set<string> := {"FOUNDATIONAL", "INTERMEDIATE", "ADVANCED", "EXPERT"}

  /** The missing ids that resolve to a stored competence of level `l`; dangling ids never do. */
  function MissingAtLevel(comps: map<string, Competence>, missing: set<string>, l: Level): (r: set<string>)
    ensures r <= missing
    ensures forall id :: id in r <==> id in missing && id in comps && comps[id].level == l
  {
    set id | id in missing && id in comps && comps[id].level == l
  }

  /**
   * The breakdown the gap analysis builds by visiting `levels` in order: a level
   * with something missing is listed under its name, any other level is skipped.
   */
  function GroupMissing(comps: map<string, Competence>, missing: set<string>, levels: seq<Level>)
    : (m: map<string, set<string>>)
    ensures m.Keys <= LevelNames
    ensures forall name :: name in m ==> m[name] != {} && m[name] <= missing
  {
    if levels == [] then map[]
    else
      var l := levels[|levels| - 1];
      var m := GroupMissing(comps, missing, levels[..|levels| - 1]);
      if MissingAtLevel(comps, missing, l) != {} then m[l.Name() := MissingAtLevel(comps, missing, l)] else m
  }

  /** Visiting one more level adds it, with its missing ids, exactly when it has some. */
  lemma GroupMissingSnoc(comps: map<string, Competence>, missing: set<string>, levels: seq<Level>, l: Level)
    ensures GroupMissing(comps, missing, levels + [l]) ==
      if MissingAtLevel(comps, missing, l) != {}
      then GroupMissing(comps, missing, levels)[l.Name() := MissingAtLevel(comps, missing, l)]
      else GroupMissing(comps, missing, levels)
  {
    assert (levels + [l])[..|levels|] == levels;
  }

  /** A level is listed exactly when it was visited and has something missing, and then with all of it. */
  lemma {:induction false} GroupMissingContents(comps: map<string, Competence>, missing: set<string>, levels: seq<Level>)
    ensures forall l: Level :: l.Name() in GroupMissing(comps, missing, levels) <==>
      l in levels && MissingAtLevel(comps, missing, l) != {}
    ensures forall l: Level :: l.Name() in GroupMissing(comps, missing, levels) ==>
      GroupMissing(comps, missing, levels)[l.Name()] == MissingAtLevel(comps, missing, l)
  {
    if levels != [] {
      var init, last := levels[..|levels| - 1], levels[|levels| - 1];
      GroupMissingContents(comps, missing, init);
      assert levels == init + [last];
      GroupMissingSnoc(comps, missing, init, last);
      forall l: Level | l != last ensures l.Name() != last.Name() {
        NamesDiffer(l, last);
      }
    }
  }

  /** Distinct levels have distinct names. */
  lemma NamesDiffer(l: Level, l': Level)
    requires l != l'
    ensures l.Name() != l'.Name()
  {
    assert LevelFromName(l.Name()).value == l;
  }

  /** The per-level breakdown of the missing ids over every level. */
  function MissingByLevel(comps: map<string, Competence>, missing: set<string>): (m: map<string, set<string>>)
    ensures m.Keys <= LevelNames
    ensures forall name :: name in m ==> m[name] != {} && m[name] <= missing
    ensures forall l: Level :: l.Name() in m <==> MissingAtLevel(comps, missing, l) != {}
    ensures forall l: Level :: l.Name() in m ==> m[l.Name()] == MissingAtLevel(comps, missing, l)
  {
    GroupMissingContents(comps, missing, AllLevels);
    forall l: Level ensures l in AllLevels {
      assert AllLevels[l.Rank() - 1] == l;
    }
    GroupMissing(comps, missing, AllLevels)
  }

  /** A single missing id that resolves is listed under its own level and nowhere else. */
  lemma SingleMissing(comps: map<string, Competence>, id: string)
    requires id in comps
    ensures MissingByLevel(comps, {id}) == map[comps[id].level.Name() := {id}]
  {
    var m := MissingByLevel(comps, {id});
    var l := comps[id].level;
    assert MissingAtLevel(comps, {id}, l) == {id};
    forall l': Level | l' != l ensures l'.Name() !in m {
      assert MissingAtLevel(comps, {id}, l') == {};
    }
    assert Foundational.Name() in m ==> Foundational == l;
    assert Intermediate.Name() in m ==> Intermediate == l;
    assert Advanced.Name() in m ==> Advanced == l;
    assert Expert.Name() in m ==> Expert == l;
  }

  // ---------------------------------------------------------------------------
  // Summary counts

  /** The number of competences on each axis, keyed by the axis name. */
  function AxisCounts(cs: seq<Competence>): (m: map<string, nat>)
    ensures m.Keys == {"MARINE", "MARITIME", "OCEANIC"}
    ensures forall a: Axis :: m[a.Name()] == |ByAxis(cs, a)|
    ensures m["MARINE"] + m["MARITIME"] + m["OCEANIC"] == |cs|
  {
    var marine, maritime, oceanic := |ByAxis(cs, Marine)|, |ByAxis(cs, Maritime)|, |ByAxis(cs, Oceanic)|;
    assert marine + maritime + oceanic == |cs| by { AxesPartition(cs); }
    map["MARINE" := marine, "MARITIME" := maritime, "OCEANIC" := oceanic]
  }

  /** The number of competences at each level, keyed by the level name. */
  function LevelCounts(cs: seq<Competence>): (m: map<string, nat>)
    ensures m.Keys == LevelNames
    ensures forall l: Level :: m[l.Name()] == |ByLevel(cs, l)|
    ensures m["FOUNDATIONAL"] + m["INTERMEDIATE"] + m["ADVANCED"] + m["EXPERT"] == |cs|
  {
    var foundational, intermediate := |ByLevel(cs, Foundational)|, |ByLevel(cs, Intermediate)|;
    var advanced, expert := |ByLevel(cs, Advanced)|, |ByLevel(cs, Expert)|;
    assert foundational + intermediate + advanced + expert == |cs| by { LevelsPartition(cs); }
    map["FOUNDATIONAL" := foundational, "INTERMEDIATE" := intermediate,
        "ADVANCED" := advanced, "EXPERT" := expert]
  }

  // ---------------------------------------------------------------------------
  // Average level of a credential

  /** The sum of the ranks of the ids that resolve in `comps`; dangling ids add nothing. */
  function RankSum(comps: map<string, Competence>, ids: seq<string>): (r: nat)
    ensures r <= 4 * |ids|
    ensures (forall id :: id in ids ==> id in comps) ==> |ids| <= r
    ensures (forall id :: id in ids ==> id !in comps) ==> r == 0
  {
    if ids == [] then 0
    else (if ids[0] in comps then comps[ids[0]].level.Rank() else 0) + RankSum(comps, ids[1..])
  }

  /** `max(1, len(cred.competences))`: every reference counts, dangling ones too. */
  function Denominator(cred: MicroCredential): (d: nat)
    ensures 1 <= d && |cred.competences| <= d
    ensures cred.competences != [] ==> d == |cred.competences|
  {
    if |cred.competences| < 1 then 1 else |cred.competences|
  }

  /** The average level of a credential: resolvable ranks over all references. */
  function AverageLevel(comps: map<string, Competence>, cred: MicroCredential): (avg: real)
    ensures 0.0 <= avg <= 4.0
    ensures cred.competences != [] && (forall id :: id in cred.competences ==> id in comps) ==> 1.0 <= avg
    ensures (forall id :: id in cred.competences ==> id !in comps) ==> avg == 0.0
  {
    var sum, d := RankSum(comps, cred.competences), Denominator(cred);
    assert sum as real <= 4.0 * d as real;
    assert cred.competences != [] && (forall id :: id in cred.competences ==> id in comps) ==>
      d as real <= sum as real;
    DivisionBounds(sum as real, d as real);
    sum as real / d as real
  }

  /** A credential with one resolvable reference averages that competence's rank. */
  lemma AverageOfOne(comps: map<string, Competence>, cred: MicroCredential)
    requires |cred.competences| == 1 && cred.competences[0] in comps
    ensures AverageLevel(comps, cred) == comps[cred.competences[0]].level.Rank() as real
  {
    assert RankSum(comps, cred.competences) == comps[cred.competences[0]].level.Rank();
  }

  /** A credential with two resolvable references averages their two ranks. */
  lemma AverageOfTwo(comps: map<string, Competence>, cred: MicroCredential)
    requires |cred.competences| == 2 && cred.competences[0] in comps && cred.competences[1] in comps
    ensures AverageLevel(comps, cred) ==
      (comps[cred.competences[0]].level.Rank() + comps[cred.competences[1]].level.Rank()) as real / 2.0
  {
    var ids := cred.competences;
    assert RankSum(comps, ids[1..]) == comps[ids[1]].level.Rank() by {
      assert ids[1..][1..] == [];
    }
  }

  lemma DivisionBounds(x: real, d: real)
    requires 0.0 <= x && 1.0 <= d
    ensures 0.0 <= x / d
    ensures x <= 4.0 * d ==> x / d <= 4.0
    ensures d <= x ==> 1.0 <= x / d
  {
    var q := x / d;
    assert q * d == x;
  }

  /** Comparing averages is comparing the cross products of sums and denominators. */
  lemma AverageComparesByCrossProducts(comps: map<string, Competence>, x: MicroCredential, y: MicroCredential)
    ensures AverageLevel(comps, x) <= AverageLevel(comps, y)
            <==> RankSum(comps, x.competences) * Denominator(y) <= RankSum(comps, y.competences) * Denominator(x)
  {
    var sx, dx := RankSum(comps, x.competences), Denominator(x);
    var sy, dy := RankSum(comps, y.competences), Denominator(y);
    assert AverageLevel(comps, x) == sx as real / dx as real;
    assert AverageLevel(comps, y) == sy as real / dy as real;
    NatCrossProducts(sx, dx, sy, dy);
  }

  lemma NatCrossProducts(sx: nat, dx: nat, sy: nat, dy: nat)
    requires 1 <= dx && 1 <= dy
    ensures sx as real / dx as real <= sy as real / dy as real <==> sx * dy <= sy * dx
  {
    CrossProducts(sx as real, dx as real, sy as real, dy as real);
    IntProductAsReal(sx, dy);
    IntProductAsReal(sy, dx);
  }

  lemma IntProductAsReal(a: int, b: int)
    ensures (a * b) as real == a as real * b as real
  {
  }

  lemma CrossProducts(sx: real, dx: real, sy: real, dy: real)
    requires 0.0 < dx && 0.0 < dy
    ensures sx / dx <= sy / dy <==> sx * dy <= sy * dx
  {
    var qx, qy := sx / dx, sy / dy;
    var p := dx * dy;
    assert 0.0 < p;
    assert sx * dy == qx * p by { assert sx == qx * dx; }
    assert sy * dx == qy * p by { assert sy == qy * dy; }
    assert qx <= qy ==> qx * p <= qy * p;
    assert qx * p <= qy * p ==> qx <= qy;
  }

  // ---------------------------------------------------------------------------
  // Pathway order

  /** The strict order a stable sort by `key` produces: by key, ties by original position. */
  predicate Before<T>(x: T, y: T, key: T -> real, pos: T -> int) {
    key(x) < key(y) || (key(x) == key(y) && pos(x) < pos(y))
  }

  ghost predicate OrderedBy<T>(s: seq<T>, key: T -> real, pos: T -> int) {
    forall i, j :: 0 <= i < j < |s| ==> Before(s[i], s[j], key, pos)
  }

  /** Two arrangements of the same elements that are both in this order are the same arrangement. */
  lemma {:induction false} OrderedByUnique<T>(a: seq<T>, b: seq<T>, key: T -> real, pos: T -> int)
    requires OrderedBy(a, key, pos) && OrderedBy(b, key, pos)
    requires multiset(a) == multiset(b)
    ensures a == b
  {
    assert |a| == |multiset(a)| == |multiset(b)| == |b|;
    if a != [] {
      var x, y := a[0], b[0];
      assert x == b[Index(b, x)] by { assert x in multiset(b); }
      assert y == a[Index(a, y)] by { assert y in multiset(a); }
      assert x == y;
      OrderedByTail(a, key, pos);
      OrderedByTail(b, key, pos);
      assert multiset(a[1..]) == multiset(b[1..]) by {
        assert a == [x] + a[1..] && b == [x] + b[1..];
        assert multiset(a) == multiset{x} + multiset(a[1..]);
        assert multiset(b) == multiset{x} + multiset(b[1..]);
        assert multiset(a[1..]) == multiset(a) - multiset{x};
        assert multiset(b[1..]) == multiset(b) - multiset{x};
      }
      OrderedByUnique(a[1..], b[1..], key, pos);
      assert a == [x] + a[1..] && b == [x] + b[1..];
    }
  }

  /** A position at which `x` occurs in `s`. */
  ghost function Index<T>(s: seq<T>, x: T): (i: nat)
    requires x in s
    ensures i < |s| && s[i] == x
  {
    if s[0] == x then 0 else 1 + Index(s[1..], x)
  }

  lemma OrderedByTail<T>(s: seq<T>, key: T -> real, pos: T -> int)
    requires s != [] && OrderedBy(s, key, pos)
    ensures OrderedBy(s[1..], key, pos)
  {
    forall i, j | 0 <= i < j < |s| - 1
      ensures Before(s[1..][i], s[1..][j], key, pos)
    {
      assert s[1..][i] == s[i + 1] && s[1..][j] == s[j + 1];
    }
  }

  /**
   * A pathway over the stored credentials: all of them, each as often as stored,
   * non-decreasing by average level, and ties in the order of the store.
   */
  ghost predicate IsPathway(comps: map<string, Competence>, creds: Dict<MicroCredential>, r: seq<MicroCredential>)
    requires creds.Valid()
  {
    && multiset(r) == multiset(creds.Values())
    && (forall i, j :: 0 <= i < j < |r| ==> AverageLevel(comps, r[i]) <= AverageLevel(comps, r[j]))
    && (forall i, j :: 0 <= i < j < |r| && AverageLevel(comps, r[i]) == AverageLevel(comps, r[j]) ==>
          creds.IndexOf(r[i].id) < creds.IndexOf(r[j].id))
  }

  /** Two stored credentials with strictly increasing averages form the pathway in store order. */
  lemma PairIsPathway(comps: map<string, Competence>, creds: Dict<MicroCredential>, x: MicroCredential, y: MicroCredential)
    requires creds.Valid() && creds.Values() == [x, y]
    requires AverageLevel(comps, x) < AverageLevel(comps, y)
    ensures IsPathway(comps, creds, [x, y])
  {
  }

  /** At most one sequence is a pathway: any stable sort by average yields the same one. */
  lemma PathwayIsUnique(comps: map<string, Competence>, creds: Dict<MicroCredential>,
                        r1: seq<MicroCredential>, r2: seq<MicroCredential>)
    requires creds.Valid()
    requires IsPathway(comps, creds, r1) && IsPathway(comps, creds, r2)
    ensures r1 == r2
  {
    var key := (c: MicroCredential) => AverageLevel(comps, c);
    var pos := (c: MicroCredential) => creds.IndexOf(c.id);
    assert OrderedBy(r1, key, pos);
    assert OrderedBy(r2, key, pos);
    OrderedByUnique(r1, r2, key, pos);
  }
}
