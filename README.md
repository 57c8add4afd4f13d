# morskamary competence mapping, modelled in Dafny

This project models the core of the morskamary Blue Sociology toolkit.
- **Entities.** The three axes of the Tripartite Model of Blue Dynamics (Marine, Maritime, Oceanic) and the four ranked proficiency levels. Competences and micro-credentials, with their dictionary renderings, and the seed competences.
- **The competence mapper.** Two id-keyed stores, each with last-write-wins inserts. The axis and level filters. The case-insensitive sector lookup and the gap analysis. The credential pathway, ordered by average competence level, and the summary.

Files:
- `wrappers.dfy`: `Option`.
- `text.dfy`: ASCII lower-casing, as used for sector names.
- `core.dfy`: the enums, the two records, `to_dict` with a decoder that inverts it, and the seed competences.
- `dicts.dfy`: a Python `dict` keyed by strings. It keeps a table and the key insertion order.
- `mapper_spec.dfy`: the reference definitions the mapper is proved against, and lemmas about them. These cover the filters and their partition of the store, the sector union, the per-level breakdown of missing ids, the average level, and the pathway order and its uniqueness.
- `competence_mapper.dfy`: the class `CompetenceMapper`. Its fields are the two stores. The gap analysis, sector lookup and pathway are loops, written as methods. The pathway sorts an array of `(credential, average, position)` entries in place, with a stable insertion sort.
- `scenarios.dfy`: the demonstration run and the test suite's expectations.
  - It seeds three competences and two credentials.
  - It states the gap report for a holder of the marine competence who targets offshore energy.
  - It states the pathway order and the summary.

## Model

| member | source | states |
|---|---|---|
| Core.AxisFromCode | src/core.py:11-15 | the axis codes are `M`, `T`, `O`; reading a code back gives the one axis with that code, and nothing for any other string |
| Core.Level.Rank | src/core.py:18-23 | levels are ranked 1 to 4 in declaration order (position `rank - 1` of the enum order) |
| Core.LevelFromName | src/core.py:18-23 | a level name reads back to exactly the level with that name |
| Core.RanksIncrease | src/core.py:20-23 | the ranks are 1, 2, 3, 4 and strictly increase along the enum order |
| Core.Competence.ToDict | src/core.py:46-55 | the record has exactly the six field keys; id, name, description and keywords are carried unchanged, the axis as its code and the level as its name; decoding it gives the competence back |
| Core.MicroCredential.ToDict | src/core.py:76-84 | the record has exactly the five field keys, each field carried unchanged, the competence list with its length; decoding it gives the credential back |
| Core.SampleCompetences | src/core.py:125-152 | three competences with distinct ids: marine/intermediate, maritime/advanced, oceanic/advanced |
| Dicts.Dict.Put | src/competence_mapper.py:18 | `d[k] = v`: `k` now maps to `v`, other keys keep their values, an existing key keeps its place and a new key is appended, and the length grows only for a new key |
| Dicts.Dict.Values | src/competence_mapper.py:26 | `d.values()`: one value per key, in key order, and every stored value occurs |
| Text.Lower | src/competence_mapper.py:36 | `str.lower` on ASCII: same length, each character lower-cased, no upper-case letter left |
| Text.LowerIdempotent | src/competence_mapper.py:36 | lower-casing twice is lower-casing once |
| Text.LowerOfUpperVariant | src/competence_mapper.py:36 | `OFFSHORE-ENERGY` and `offshore-energy` lower-case to the same sector name |
| Mapper.CompetenceMapper.constructor | src/competence_mapper.py:12-14 | a new mapper has two empty stores |
| Mapper.CompetenceMapper.AddCompetence | src/competence_mapper.py:16-18 | the competence is stored under its id, replacing any earlier one, the stores stay keyed by id, and the credentials do not change |
| Mapper.CompetenceMapper.AddCredentials | src/competence_mapper.py:20-22 | the credential is stored under its id, replacing any earlier one, the stores stay keyed by id, and the competences do not change |
| Mapper.CompetenceMapper.GetCompetencesByAxis | src/competence_mapper.py:24-26 | a stored competence is in the result if and only if it is on the axis; the result is the axis filter of the store's values, so the partition and order lemmas apply |
| Mapper.CompetenceMapper.GetCompetencesByLevel | src/competence_mapper.py:28-30 | a stored competence is in the result if and only if it is at the level; the result is the level filter of the store's values |
| MapperSpec.ByAxisMembers | src/competence_mapper.py:26 | the axis filter keeps a competence if and only if it is on that axis |
| MapperSpec.ByAxisAppend | src/competence_mapper.py:26 | the filter keeps the store order: filtering a concatenation concatenates the filters |
| MapperSpec.AxesPartition | src/competence_mapper.py:24-26 | the three axis filters split the store: their multisets add up to the store's, and their lengths to its size |
| MapperSpec.ByLevelMembers | src/competence_mapper.py:30 | the level filter keeps a competence if and only if it is at that level |
| MapperSpec.ByLevelAppend | src/competence_mapper.py:30 | the level filter keeps the store order |
| MapperSpec.LevelsPartition | src/competence_mapper.py:28-30 | the four level filters split the store, by multiset and by count |
| MapperSpec.SectorCredentials | src/competence_mapper.py:34-37 | a credential is selected if and only if its sector equals the requested one after lower-casing both |
| MapperSpec.IdsOf | src/competence_mapper.py:39-41 | the union of the credentials' competence ids: an id is in it if and only if some credential lists it |
| MapperSpec.IdsOfPrefix | src/competence_mapper.py:40-41 | each step of the update loop adds exactly the next credential's ids |
| MapperSpec.RequiredIds | src/competence_mapper.py:32-43 | an id is required for a sector if and only if some credential of that sector, compared case-insensitively, lists it |
| MapperSpec.SectorIdsAreRequired | src/competence_mapper.py:34-43 | selecting the sector's credentials and then uniting their ids gives the required ids |
| MapperSpec.RequiredIdsIgnoreCase | src/competence_mapper.py:36 | the requested sector matters only through its lower-case form |
| MapperSpec.RequiredIdsOfUnknownSector | src/competence_mapper.py:32-43 | a sector no credential carries requires nothing |
| Mapper.CompetenceMapper.GetSectorCompetences | src/competence_mapper.py:32-43 | the loop's id set is exactly the ids required for the sector |
| MapperSpec.MissingAtLevel | src/competence_mapper.py:70-74 | a missing id is listed for a level if and only if it is a stored competence of that level; dangling ids are never listed |
| MapperSpec.GroupMissing | src/competence_mapper.py:69-76 | visiting levels in order, only level names are keys, and each entry is a non-empty subset of the missing ids |
| MapperSpec.GroupMissingSnoc | src/competence_mapper.py:75-76 | visiting one more level adds its entry exactly when it has something missing |
| MapperSpec.GroupMissingContents | src/competence_mapper.py:69-76 | a level is listed if and only if it was visited and has something missing, and then with all of it |
| MapperSpec.NamesDiffer | src/core.py:18-23 | distinct levels have distinct names, so the breakdown's keys do not collide |
| MapperSpec.MissingByLevel | src/competence_mapper.py:69-76 | over all four levels, a level name is a key if and only if some missing id resolves to that level, and its entry is exactly those ids |
| MapperSpec.SingleMissing | src/competence_mapper.py:69-76 | one missing id that resolves is listed under its own level and under no other |
| Mapper.CompetenceMapper.AnalyzeCompetenceGaps | src/competence_mapper.py:45-78 | an id is available if and only if it is held and required, missing if and only if it is required and not held; the two sets are disjoint and together make up the required ids; the breakdown is the per-level grouping of the missing ids |
| MapperSpec.RankSum | src/competence_mapper.py:96-99 | the sum of the ranks of the resolvable ids: at most 4 per id, at least 1 per id when all resolve, 0 when none does |
| MapperSpec.Denominator | src/competence_mapper.py:100 | `max(1, len)`: at least 1, and the number of references when there are any, dangling ones included |
| MapperSpec.AverageLevel | src/competence_mapper.py:96-100 | the average lies between 0 and 4, is at least 1 when every reference resolves, and is 0 when none does |
| MapperSpec.AverageOfOne | src/competence_mapper.py:96-100 | one resolvable reference averages to its rank |
| MapperSpec.AverageOfTwo | src/competence_mapper.py:96-100 | two resolvable references average to half their rank sum |
| MapperSpec.AverageComparesByCrossProducts | src/competence_mapper.py:96-104 | comparing two averages is comparing the cross products of rank sums and denominators |
| MapperSpec.OrderedByUnique | src/competence_mapper.py:104 | two arrangements of the same elements, both ordered by key with ties in original order, are equal |
| MapperSpec.PathwayIsUnique | src/competence_mapper.py:80-106 | at most one sequence is a pathway, so any stable sort by average gives the same result |
| MapperSpec.PairIsPathway | src/competence_mapper.py:80-106 | two stored credentials with strictly increasing averages form the pathway in store order |
| Mapper.SortByAverage | src/competence_mapper.py:104 | the sort, in place: the result is a permutation of the input, ordered by average with ties kept in their original order |
| Mapper.InsertLast | src/competence_mapper.py:104 | one insertion step: the sorted prefix grows by one, the suffix is untouched, and the array stays a permutation |
| Mapper.SwapKeepsMoving | src/competence_mapper.py:104 | one swap of the insertion step keeps the loop state: prefix order around the moving entry, untouched suffix, permutation |
| Mapper.CredentialsOf | src/competence_mapper.py:106 | dropping the averages keeps the credentials one for one, in order |
| Mapper.CredentialsOfPermutation | src/competence_mapper.py:104-106 | rearranging the entries rearranges their credentials the same way |
| Mapper.SortedEntriesFormPathway | src/competence_mapper.py:93-106 | sorting the `(credential, average)` entries of the stored credentials and dropping the averages gives a pathway |
| Mapper.CompetenceMapper.SuggestCredentialPathway | src/competence_mapper.py:80-106 | the result contains every stored credential exactly as often as stored, is non-decreasing in average level, and keeps equal averages in store order |
| MapperSpec.AxisCounts | src/competence_mapper.py:110-113 | one count per axis name, each the size of that axis's filter, and the counts add up to the number of competences |
| MapperSpec.LevelCounts | src/competence_mapper.py:115-118 | one count per level name, each the size of that level's filter, and the counts add up to the number of competences |
| Mapper.CompetenceMapper.GetSummary | src/competence_mapper.py:108-128 | the totals are the store sizes; the counts per axis and per level are `AxisCounts` and `LevelCounts` of the stored competences; a sector is listed if and only if some stored credential carries it, exactly as written |
| Scenarios.SeedCompetenceStore | main.py:29-33 | adding the seed competences in order stores each under its id, in that order |
| Scenarios.SeedCredentialStore | main.py:39-57 | adding the two credentials in order stores each under its id, in that order |
| Scenarios.Seeded | main.py:26-57 | the mapper the demonstration builds holds exactly those two stores |
| Scenarios.ReAddingKeepsSize | tests/__init__.py:81-92 | adding the seed competences twice still leaves three |
| Scenarios.SeedFilters | tests/__init__.py:94-103 | the marine filter gives the one marine competence; the advanced filter gives the maritime and the oceanic ones |
| Scenarios.OffshoreRequires | main.py:39-54 | offshore energy, however capitalised, requires the marine and the maritime competence |
| Scenarios.OffshoreGaps | main.py:75-87 | holding the marine competence, offshore energy leaves only the maritime one missing, listed under ADVANCED |
| Scenarios.UpperCaseOffshore | src/competence_mapper.py:36 | `OFFSHORE-ENERGY` names the same sector as `offshore-energy` |
| Scenarios.UnknownSectorGaps | src/competence_mapper.py:58-78 | a sector no stored credential carries gives an empty report |
| Scenarios.SeedAverages | main.py:39-54 | the offshore credential averages 5/2 and the governance credential 3 |
| Scenarios.DemonstrationPathway | main.py:89-96 | the pathway is offshore energy, then governance |
| Scenarios.SeedCounts | tests/__init__.py:105-111 | one competence per axis; none foundational, one intermediate, two advanced, none expert |
| Scenarios.DemonstrationSummary | main.py:61-72 | three competences, two credentials, one per axis, one intermediate and two advanced, sectors offshore-energy and governance |

## Left out

- `load_competence_matrix` (src/core.py:87-122) is not modelled. It reads CSV or Excel files through pandas, which is file I/O and a third-party library.
- Printing in `main.py` and the `__main__` guards are left out. The demonstration's observable results are stated in `Scenarios`.
- `Text.Lower`: `str.lower` is modelled on ASCII letters only. Unicode case mapping is not modelled.
- `MapperSpec.AverageLevel`: the average is an exact `real`, where Python computes a float. The sort compares averages only. Two distinct averages that round to the same float would need very long credentials, so the model ignores that rounding.
- `Mapper.SortByAverage`: Python's `list.sort` (Timsort) is modelled by an in-place stable insertion sort. Its result is the same, because any stable sort by average gives the one pathway `MapperSpec.PathwayIsUnique` allows. Timsort's own steps and cost are not modelled.
- `Mapper.CompetenceMapper.GetSectorCompetences` and `Mapper.CompetenceMapper.AnalyzeCompetenceGaps` return sets. The source turns those sets into lists whose order depends on string hashing, which is unspecified, so the model does not fix an order. The `by_level` entries are sets for the same reason.
- `Mapper.CompetenceMapper.GetSummary`: the axis counts are keyed by the axis name, as the source's returned dictionary is. The intermediate dictionary keyed by enum members is not modelled.
- The sector set of the summary compares sector names exactly as written, while the sector lookup ignores case. So `Ports` and `ports` are two sectors in the summary but one in a lookup. The model keeps that difference as the source has it.
- `Mapper.CompetenceMapper.SuggestCredentialPathway` takes `startingLevel` and ignores it, as the source does with `starting_level`.
- Dataclass equality, `repr` and mutation of a record after it is stored are not modelled. Records are immutable values.
