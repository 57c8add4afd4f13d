/**
 * The competence mapper: two id-keyed stores with last-write-wins inserts,
 * the axis and level filters, the case-insensitive sector lookup, gap
 * analysis, the credential pathway and the summary.
 */
module Mapper {
  import opened Core
  import opened Dicts
  import opened MapperSpec

  /** What `analyze_competence_gaps` returns; its lists come from sets, so they are sets here. */
  datatype GapReport = GapReport(
    available: set<string>,
    missing: set<string>,
    byLevel: map<string, set<string>>)

  /** What `get_summary` returns. */
  datatype Summary = Summary(
    totalCompetences: nat,
    totalCredentials: nat,
    competencesByAxis: map<string, nat>,
    competencesByLevel: map<string, nat>,
    sectors: set<string>)

  /** A credential with its average level, and `pos`, the position at which it was appended. */
  datatype Entry = Entry(cred: MicroCredential, avg: real, pos: nat)

  /** The order a stable sort by average produces: by average, ties by position. */
  predicate Precedes(x: Entry, y: Entry) {
    x.avg < y.avg || (x.avg == y.avg && x.pos < y.pos)
  }

  /**
   * `credential_levels.sort(key=lambda x: x[1])`: a stable sort of the entries by
   * average, in place. It compares averages only; stability shows as ties ending
   * up in the order of their positions.
   */
  method SortByAverage(a: array<Entry>)
    requires forall k :: 0 <= k < a.Length ==> a[k].pos == k
    modifies a
    ensures forall p, q :: 0 <= p < q < a.Length ==> Precedes(a[p], a[q])
    ensures multiset(a[..]) == multiset(old(a[..]))
  {
    var i := 0;
    while i < a.Length
      invariant 0 <= i <= a.Length
      invariant forall p, q :: 0 <= p < q < i ==> Precedes(a[p], a[q])
      invariant forall p :: 0 <= p < i ==> a[p].pos < i
      invariant forall p :: i <= p < a.Length ==> a[p] == old(a[p])
      invariant multiset(a[..]) == multiset(old(a[..]))
    {
      InsertLast(a, i);
      i := i + 1;
    }
  }

  /**
   * One step of the sort: the entry at `i` moves left past every entry of the
   * sorted prefix whose average is strictly greater, and stops behind an equal one.
   */
  method InsertLast(a: array<Entry>, i: nat)
    requires i < a.Length
    requires forall p, q :: 0 <= p < q < i ==> Precedes(a[p], a[q])
    requires forall p :: 0 <= p < i ==> a[p].pos < i
    requires a[i].pos == i
    modifies a
    ensures forall p, q :: 0 <= p < q <= i ==> Precedes(a[p], a[q])
    ensures forall p :: 0 <= p <= i ==> a[p].pos <= i
    ensures forall p :: i < p < a.Length ==> a[p] == old(a[p])
    ensures multiset(a[..]) == multiset(old(a[..]))
  {
    ghost var x, s0 := a[i], a[..];
    var j := i;
    while 0 < j && a[j - 1].avg > a[j].avg
      invariant Moving(a[..], s0, i, j, x)
    {
      ghost var s := a[..];
      SwapKeepsMoving(s, s0, i, j, x);
      a[j - 1], a[j] := a[j], a[j - 1];
      assert a[..] == s[j - 1 := x][j := s[j - 1]];
      j := j - 1;
    }
    MovingDone(a[..], s0, i, j, x);
  }

  /** The whole loop state of `InsertLast`: `Inserting`, the untouched suffix and the permutation of the start `s0`. */
  ghost predicate Moving(s: seq<Entry>, s0: seq<Entry>, i: nat, j: nat, x: Entry) {
    && Inserting(s, i, j, x) && |s0| == |s|
    && (forall p :: i < p < |s| ==> s[p] == s0[p])
    && multiset(s) == multiset(s0)
  }

  lemma SwapKeepsMoving(s: seq<Entry>, s0: seq<Entry>, i: nat, j: nat, x: Entry)
    requires Moving(s, s0, i, j, x) && 0 < j && s[j - 1].avg > x.avg
    ensures Moving(s[j - 1 := x][j := s[j - 1]], s0, i, j - 1, x)
  {
    SwapKeepsInserting(s, i, j, x);
    SwapKeepsMultiset(s, j - 1, j);
  }

  lemma SwapKeepsMultiset(s: seq<Entry>, p: nat, q: nat)
    requires p < q < |s|
    ensures multiset(s[p := s[q]][q := s[p]]) == multiset(s)
  {
  }

  lemma MovingDone(s: seq<Entry>, s0: seq<Entry>, i: nat, j: nat, x: Entry)
    requires Moving(s, s0, i, j, x) && (j == 0 || s[j - 1].avg <= x.avg)
    ensures forall p, q :: 0 <= p < q <= i ==> Precedes(s[p], s[q])
    ensures forall p :: 0 <= p <= i ==> s[p].pos <= i
  {
    InsertingDone(s, i, j, x);
  }

  /** The state of `InsertLast`: `x`, appended at `i`, now sits at `j`, ahead of strictly greater averages. */
  ghost predicate Inserting(s: seq<Entry>, i: nat, j: nat, x: Entry) {
    && j <= i < |s| && s[j] == x && x.pos == i
    && (forall p, q :: 0 <= p < q <= i && p != j && q != j ==> Precedes(s[p], s[q]))
    && (forall q :: j < q <= i ==> x.avg < s[q].avg)
    && (forall p :: 0 <= p <= i && p != j ==> s[p].pos < i)
  }

  lemma SwapKeepsInserting(s: seq<Entry>, i: nat, j: nat, x: Entry)
    requires Inserting(s, i, j, x) && 0 < j && s[j - 1].avg > x.avg
    ensures Inserting(s[j - 1 := x][j := s[j - 1]], i, j - 1, x)
  {
  }

  lemma InsertingDone(s: seq<Entry>, i: nat, j: nat, x: Entry)
    requires Inserting(s, i, j, x) && (j == 0 || s[j - 1].avg <= x.avg)
    ensures forall p, q :: 0 <= p < q <= i ==> Precedes(s[p], s[q])
    ensures forall p :: 0 <= p <= i ==> s[p].pos <= i
  {
    if 0 < j {
      assert Precedes(s[j - 1], x);
    }
  }

  /** `levels` holds, in order, the first `|levels|` credentials of `creds` with their averages and positions. */
  ghost predicate EntriesOf(comps: map<string, Competence>, creds: seq<MicroCredential>, levels: seq<Entry>) {
    && |levels| <= |creds|
    && forall k :: 0 <= k < |levels| ==> levels[k] == Entry(creds[k], AverageLevel(comps, creds[k]), k)
  }

  lemma EntriesOfAppend(comps: map<string, Competence>, creds: seq<MicroCredential>, levels: seq<Entry>)
    requires EntriesOf(comps, creds, levels) && |levels| < |creds|
    ensures EntriesOf(comps, creds, levels + [Entry(creds[|levels|], AverageLevel(comps, creds[|levels|]), |levels|)])
  {
  }

  /** `[cred for cred, _ in credential_levels]`. */
  function CredentialsOf(es: seq<Entry>): (r: seq<MicroCredential>)
    ensures |r| == |es|
    ensures forall k :: 0 <= k < |es| ==> r[k] == es[k].cred
  {
    seq(|es|, k requires 0 <= k < |es| => es[k].cred)
  }

  /** Rearranging the entries rearranges their credentials the same way. */
  lemma {:induction false} CredentialsOfPermutation(xs: seq<Entry>, ys: seq<Entry>)
    requires multiset(xs) == multiset(ys)
    ensures multiset(CredentialsOf(xs)) == multiset(CredentialsOf(ys))
  {
    assert |xs| == |multiset(xs)| == |multiset(ys)| == |ys|;
    if xs != [] {
      var x := xs[0];
      assert x in multiset(ys);
      var j := Index(ys, x);
      var rest := ys[..j] + ys[j + 1..];
      assert ys == ys[..j] + [x] + ys[j + 1..];
      assert multiset(rest) == multiset(ys) - multiset{x};
      assert xs == [x] + xs[1..];
      assert multiset(xs[1..]) == multiset(xs) - multiset{x};
      CredentialsOfPermutation(xs[1..], rest);
      CredentialsOfAppend([x], xs[1..]);
      CredentialsOfAppend(ys[..j] + [x], ys[j + 1..]);
      CredentialsOfAppend(ys[..j], [x]);
      CredentialsOfAppend(ys[..j], ys[j + 1..]);
    }
  }

  lemma CredentialsOfAppend(s: seq<Entry>, t: seq<Entry>)
    ensures CredentialsOf(s + t) == CredentialsOf(s) + CredentialsOf(t)
  {
  }

  class CompetenceMapper {
    var competences: Dict<Competence>
    var credentials: Dict<MicroCredential>

    /** Both stores are well-formed and every entry is stored under its own id. */
    ghost predicate Valid()
      reads this
    {
      && competences.Valid()
      && credentials.Valid()
      && (forall k :: k in competences.entries ==> competences.entries[k].id == k)
      && (forall k :: k in credentials.entries ==> credentials.entries[k].id == k)
    }

    constructor ()
      ensures Valid()
      ensures competences == Empty() && credentials == Empty()
    {
      competences := Empty();
      credentials := Empty();
    }

    /** `add_competence`: stores `competence` under its id; the credentials are untouched. */
    method AddCompetence(competence: Competence)
      requires Valid()
      modifies this
      ensures Valid()
      ensures competences == old(competences).Put(competence.id, competence)
      ensures competences.entries[competence.id] == competence
      ensures credentials == old(credentials)
    {
      competences := competences.Put(competence.id, competence);
    }

    /** `add_credentials`: stores `credential` under its id; the competences are untouched. */
    method AddCredentials(credential: MicroCredential)
      requires Valid()
      modifies this
      ensures Valid()
      ensures credentials == old(credentials).Put(credential.id, credential)
      ensures credentials.entries[credential.id] == credential
      ensures competences == old(competences)
    {
      credentials := credentials.Put(credential.id, credential);
    }

    /** `get_competences_by_axis`: exactly the stored competences on `axis`, in store order. */
    function GetCompetencesByAxis(axis: Axis): (r: seq<Competence>)
      reads this
      requires Valid()
      ensures |r| <= competences.Len()
      ensures forall c :: c in r <==> c in competences.entries.Values && c.axis == axis
      ensures r == ByAxis(competences.Values(), axis)
    {
      ValuesAreStored(competences);
      ByAxisMembers(competences.Values(), axis);
      ByAxis(competences.Values(), axis)
    }

    /** `get_competences_by_level`: exactly the stored competences at `level`, in store order. */
    function GetCompetencesByLevel(level: Level): (r: seq<Competence>)
      reads this
      requires Valid()
      ensures |r| <= competences.Len()
      ensures forall c :: c in r <==> c in competences.entries.Values && c.level == level
      ensures r == ByLevel(competences.Values(), level)
    {
      ValuesAreStored(competences);
      ByLevelMembers(competences.Values(), level);
      ByLevel(competences.Values(), level)
    }

    /** `get_sector_competences`: the union of the ids of every credential of the sector. */
    method GetSectorCompetences(sector: string) returns (ids: set<string>)
      requires Valid()
      ensures ids == RequiredIds(credentials.Values(), sector)
    {
      var sectorCredentials := SectorCredentials(credentials.Values(), sector);
      var all: set<string> := {};
      for i := 0 to |sectorCredentials|
        invariant all == IdsOf(sectorCredentials[..i])
      {
        IdsOfPrefix(sectorCredentials, i);
        all := all + set id | id in sectorCredentials[i].competences;
      }
      assert sectorCredentials[..|sectorCredentials|] == sectorCredentials;
      SectorIdsAreRequired(credentials.Values(), sector);
      ids := all;
    }

    /**
     * `analyze_competence_gaps`: which of the sector's required ids the caller
     * holds, which are missing, and the stored missing ones grouped by level name.
     */
    method AnalyzeCompetenceGaps(available: seq<string>, requiredSector: string) returns (r: GapReport)
      requires Valid()
      ensures forall id :: id in r.available <==>
        id in available && id in RequiredIds(credentials.Values(), requiredSector)
      ensures forall id :: id in r.missing <==>
        id in RequiredIds(credentials.Values(), requiredSector) && id !in available
      ensures r.available !! r.missing
      ensures r.available + r.missing == RequiredIds(credentials.Values(), requiredSector)
      ensures r.byLevel == MissingByLevel(competences.entries, r.missing)
    {
      var required := GetSectorCompetences(requiredSector);
      var availableSet := set id | id in available;
      var missing := required - availableSet;
      var byLevel: map<string, set<string>> := map[];
      for i := 0 to |AllLevels|
        invariant byLevel == GroupMissing(competences.entries, missing, AllLevels[..i])
      {
        var level := AllLevels[i];
        var levelMissing := MissingAtLevel(competences.entries, missing, level);
        assert AllLevels[..i + 1] == AllLevels[..i] + [level];
        GroupMissingSnoc(competences.entries, missing, AllLevels[..i], level);
        if levelMissing != {} {
          byLevel := byLevel[level.Name() := levelMissing];
        }
      }
      assert AllLevels[..|AllLevels|] == AllLevels;
      r := GapReport(availableSet * required, missing, byLevel);
    }

    /**
     * `suggest_credential_pathway`: every stored credential, ordered by average
     * level with ties in store order. `startingLevel` takes no part.
     */
    method SuggestCredentialPathway(startingLevel: Level) returns (pathway: seq<MicroCredential>)
      requires Valid()
      ensures IsPathway(competences.entries, credentials, pathway)
    {
      var creds := credentials.Values();
      var levels: seq<Entry> := [];
      for i := 0 to |creds|
        invariant |levels| == i
        invariant EntriesOf(competences.entries, creds, levels)
      {
        var avg := AverageLevel(competences.entries, creds[i]);
        EntriesOfAppend(competences.entries, creds, levels);
        levels := levels + [Entry(creds[i], avg, i)];
      }
      var a := new Entry[|levels|](k requires 0 <= k < |levels| => levels[k]);
      assert a[..] == levels;
      SortByAverage(a);
      SortedEntriesFormPathway(competences.entries, credentials, levels, a[..]);
      pathway := CredentialsOf(a[..]);
    }

    /** `get_summary`: the totals, the counts per axis and per level, and the raw sector names. */
    function GetSummary(): (s: Summary)
      reads this
      requires Valid()
      ensures s.totalCompetences == |competences.entries| && s.totalCredentials == |credentials.entries|
      ensures s.competencesByAxis == AxisCounts(competences.Values())
      ensures s.competencesByLevel == LevelCounts(competences.Values())
      ensures forall sector :: sector in s.sectors <==>
        exists k :: k in credentials.entries && credentials.entries[k].sector == sector
    {
      var sectors := set cr | cr in credentials.Values() :: cr.sector;
      assert forall sector :: sector in sectors <==>
        exists k :: k in credentials.entries && credentials.entries[k].sector == sector by {
        ValuesAreStored(credentials);
      }
      Summary(competences.Len(), credentials.Len(),
              AxisCounts(competences.Values()), LevelCounts(competences.Values()), sectors)
    }
  }

  /**
   * Sorting the `(credential, average, position)` entries of the stored credentials
   * and dropping the averages yields the pathway.
   */
  lemma SortedEntriesFormPathway(comps: map<string, Competence>, creds: Dict<MicroCredential>,
                                 levels: seq<Entry>, sorted: seq<Entry>)
    requires creds.Valid()
    requires forall k :: k in creds.entries ==> creds.entries[k].id == k
    requires |levels| == |creds.keys| && EntriesOf(comps, creds.Values(), levels)
    requires multiset(sorted) == multiset(levels)
    requires forall p, q :: 0 <= p < q < |sorted| ==> Precedes(sorted[p], sorted[q])
    ensures IsPathway(comps, creds, CredentialsOf(sorted))
  {
    LevelsAreFaithful(comps, creds, levels);
    PermutationKeepsFaithful(comps, creds, levels, sorted);
    CredentialsOfPermutation(sorted, levels);
    assert CredentialsOf(levels) == creds.Values();
    FaithfulOrderIsPathway(comps, creds, sorted);
  }

  /** The entry carries its credential's average level and the credential's position in the store. */
  ghost predicate Faithful(comps: map<string, Competence>, creds: Dict<MicroCredential>, e: Entry) {
    e.avg == AverageLevel(comps, e.cred) && e.pos == creds.IndexOf(e.cred.id)
  }

  lemma LevelsAreFaithful(comps: map<string, Competence>, creds: Dict<MicroCredential>, levels: seq<Entry>)
    requires creds.Valid()
    requires forall k :: k in creds.entries ==> creds.entries[k].id == k
    requires |levels| == |creds.keys| && EntriesOf(comps, creds.Values(), levels)
    ensures forall k :: 0 <= k < |levels| ==> Faithful(comps, creds, levels[k])
  {
    forall k | 0 <= k < |levels|
      ensures Faithful(comps, creds, levels[k])
    {
      assert creds.Values()[k] == creds.entries[creds.keys[k]];
      assert creds.IndexOf(creds.keys[k]) == k;
    }
  }

  lemma PermutationKeepsFaithful(comps: map<string, Competence>, creds: Dict<MicroCredential>,
                                 levels: seq<Entry>, sorted: seq<Entry>)
    requires forall k :: 0 <= k < |levels| ==> Faithful(comps, creds, levels[k])
    requires multiset(sorted) == multiset(levels)
    ensures forall p :: 0 <= p < |sorted| ==> Faithful(comps, creds, sorted[p])
  {
    forall p | 0 <= p < |sorted|
      ensures Faithful(comps, creds, sorted[p])
    {
      assert sorted[p] in multiset(levels);
      assert sorted[p] == levels[Index(levels, sorted[p])];
    }
  }

  lemma FaithfulOrderIsPathway(comps: map<string, Competence>, creds: Dict<MicroCredential>, sorted: seq<Entry>)
    requires creds.Valid()
    requires forall p :: 0 <= p < |sorted| ==> Faithful(comps, creds, sorted[p])
    requires forall p, q :: 0 <= p < q < |sorted| ==> Precedes(sorted[p], sorted[q])
    requires multiset(CredentialsOf(sorted)) == multiset(creds.Values())
    ensures IsPathway(comps, creds, CredentialsOf(sorted))
  {
  }

  /** A value of `d.values()` is a value stored in the table, and conversely. */
  lemma ValuesAreStored<V>(d: Dict<V>)
    requires d.Valid()
    ensures forall v :: v in d.Values() <==> v in d.entries.Values
  {
    forall v | v in d.Values()
      ensures v in d.entries.Values
    {
      var i := Index(d.Values(), v);
      assert d.keys[i] in d.entries;
    }
  }
}
