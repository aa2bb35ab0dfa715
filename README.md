# A verified model of the fuel-price scraper and its read side

The system publishes daily petrol, diesel, LPG and CNG prices for the states
and cities of India. A scraper reads the state and city listing pages of the
Goodreturns site and validates what it finds. It then writes one snapshot per
city and day into a relational store. API routes, SEO helpers and a URL
middleware serve those snapshots.

This project models the decision logic of that system in Dafny: what the code
does once pages, query results, the clock and configuration are given as
inputs. One module per source file:

| module | file | what it holds |
|---|---|---|
| BatchValidation, BatchNames, BatchDiscovery, BatchTable, BatchKeys, BatchPipeline, BatchRun, BatchSnapshot, BatchDates | lib/myFuelSourceBatch.ts | state-name normalisation and lookup, discovery, plausible ranges and the median outlier test, the "13th Dec, 2025" date reader, row parsing and table scoring on a state page, fallback re-fetch key selection, per-state record assembly and the replace/delete/chunked write, the per-city snapshot paths |
| FuelDb, FuelStore | lib/fuelStore.ts | the store as a class over maps keyed by state, city and date; the Kadapa/Cuddapah aliases, number and date coercion, the Lakshadweep override, chart data, trend points, history and today's rows, the latest non-null price per city |
| SeoFuelRepo, Civil | lib/seoFuelRepo.ts | calendar-day shift, city parameter normalisation, the ILIKE pattern, the three-way city resolution, the cheapest-petrol summary, the history window |
| MyFuelSource | lib/myFuelSource.ts | the seed-list path: price parsing, name matching, the Kerala table, the snapshot of a configured city |
| DiscoverCoverage | scripts/discoverGoodreturnsCoverage.ts | state map, state page discovery, city slugs and their fallback, city deduplication, the coverage map |
| SeoSchemas | lib/seoSchemas.ts | city slugs, travel cost, BreadcrumbList / ItemList, canonical city URLs, the city FAQ |
| Middleware | middleware.ts | the pass-through / legacy-rewrite decision |
| UpdateFuelPricesRoute, StatesRoute, CitiesRoute, FuelPricesRoute | app/api/*/route.ts | the cron endpoint and the three read endpoints |
| Common, Sorting, Dedup, Folds, Series, Numbers | shared | strings and character classes, a stable sort, first-wins and last-wins deduplication, folds over maps, keyed series, decimal numbers |

Shared concepts are defined once. `normalizeCityForCompare` and
`normalizeCityKey` (lib/seoFuelRepo.ts:213-219, lib/fuelStore.ts:161-166)
and the coverage script's normalisers are all `Common.NormalizeKey`.
`addDays` is `Civil.AddDays`. JavaScript's stable `Array.prototype.sort` is
`Sorting.Sort`. `new Map(...)` construction (last write wins, first
insertion position kept) is `Series.Latest`.

Where the prose description of the system and the code disagree, the model
follows the code:
- The anchor-table strategy of `fetchCityPriceMapFromStatePage` only checks
  `price >= min`. It applies neither the upper bound nor the LPG ×14.2
  conversion that `addRow` applies.
- The state-table path writes one record per city key even when all four of
  its prices are null.

The exception is the two defects listed under Findings: the model records each
as written and then uses the corrected behaviour everywhere else, as
the Left out section lists member by member.

## Model

| member | source | states |
|---|---|---|
| BatchValidation.ValidRanges | lib/myFuelSourceBatch.ts:140-151 | a price is valid exactly when it is present and inside the inclusive range of its fuel: LPG 100 to 2500, CNG 10 to 300, petrol and diesel 30 to 300 |
| BatchValidation.ValidOrNull | lib/myFuelSourceBatch.ts:842-853 | the price is kept exactly when it is valid for its fuel, and is then unchanged; otherwise it becomes null |
| BatchValidation.Median | lib/myFuelSourceBatch.ts:153-158 | the median is null exactly for no values |
| BatchValidation.MedianPermutationInvariant | lib/myFuelSourceBatch.ts:153-158 | the median depends only on the multiset of values, not on their order |
| BatchValidation.MedianOfSorted | lib/myFuelSourceBatch.ts:153-158 | on ascending input the median is the middle element for an odd count and the mean of the two middle elements for an even count |
| BatchValidation.MedianBounds | lib/myFuelSourceBatch.ts:153-158 | the median lies between some value and some other value of the input (between the minimum and the maximum) |
| BatchValidation.SuspectIffOutsideBand | lib/myFuelSourceBatch.ts:160-167 | with a positive median m, a price is suspect exactly when it lies outside m·(1 ± tolerance), the tolerance being 0.35 for LPG, 0.5 for CNG and 0.25 otherwise |
| BatchValidation.NeverSuspectWithoutMedian | lib/myFuelSourceBatch.ts:160-162 | no price is suspect when the median is null or not positive |
| BatchNames.ReplaceAmpersands | lib/myFuelSourceBatch.ts:72 | a name without '&' is left unchanged |
| BatchNames.StateCodeOf | lib/myFuelSourceBatch.ts:78-81 | a code is found exactly when the normalised name is a key of the state table, and it is that key's code |
| BatchNames.NormalizeStateNameShape | lib/myFuelSourceBatch.ts:69-76 | a normalised name has no upper-case letter, no space at either end and single spaces between words of letters and digits |
| BatchNames.NormalizeStateNameIdempotent | lib/myFuelSourceBatch.ts:69-81 | normalising twice equals normalising once, so a name and its normal form map to the same code |
| BatchNames.SlugifyCityName | lib/myFuelSourceBatch.ts:375-383 | the slug is null exactly when the name has no letter or digit; otherwise it is non-empty, lower-case words joined by single '-' with none at either end |
| BatchDiscovery.StatePageHrefOf | lib/myFuelSourceBatch.ts:90-94 | a link "petrol-price-in-&lt;slug&gt;-s&lt;n&gt;.html" after any prefix passes both the anchor selector and the state-page pattern |
| BatchDiscovery.Absolutize | lib/myFuelSourceBatch.ts:98-100 | an absolute link is kept; a relative one is put under the site, with one '/' between; the result always starts with "http" |
| BatchDiscovery.StateOfAnchor | lib/myFuelSourceBatch.ts:90-102 | an anchor yields a state exactly when its href is non-empty, its trimmed text is non-empty, the href is a state-page link and the text names a known state; the state has that code, the absolutised URL and the space-collapsed name |
| BatchDiscovery.DiscoverStates | lib/myFuelSourceBatch.ts:85-113 | the two loops (collect, then keep the first state per URL) compute the discovered states |
| BatchDiscovery.DiscoveredStatesSound | lib/myFuelSourceBatch.ts:85-113 | every discovered state is what some anchor yields |
| BatchDiscovery.DiscoveredStatesDistinct | lib/myFuelSourceBatch.ts:105-111 | no petrol URL is kept twice |
| BatchDiscovery.DiscoveredStatesComplete | lib/myFuelSourceBatch.ts:85-113 | the URL of every anchor that yields a state is among the discovered states |
| BatchDiscovery.StateCodesProps | lib/myFuelSourceBatch.ts:115-120 | the exported codes are sorted, each appears once, and a code is exported exactly when it is two capital letters and is the upper-cased code of some discovered state |
| BatchTable.CleanParts | lib/myFuelSourceBatch.ts:453 | every cell kept by addRow is whitespace-collapsed, trimmed and non-empty |
| BatchTable.FirstCityCell | lib/myFuelSourceBatch.ts:459-461 | the city cell is the first part with a letter and no label word; none is found only when no part qualifies |
| BatchTable.AdjustLpg | lib/myFuelSourceBatch.ts:479-487 | the LPG conversion leaves a value as it is or multiplies it by the 14.2 kg cylinder weight |
| BatchTable.LpgRule | lib/myFuelSourceBatch.ts:480-485 | a value changes exactly when the fuel is LPG, the value is below the minimum 100 and ×14.2 lands within 100..2500 |
| BatchTable.RowCellCandidate | lib/myFuelSourceBatch.ts:471-488 | a cell becomes an addRow candidate only with a price inside the fuel's range after the LPG rule |
| BatchTable.RowCandidates | lib/myFuelSourceBatch.ts:471-488 | every candidate of a row lies inside the fuel's range |
| BatchTable.LinkCellCandidate | lib/myFuelSourceBatch.ts:613-619 | an anchor-table cell becomes a candidate only with a price not below the fuel's minimum |
| BatchTable.LinkRowCandidates | lib/myFuelSourceBatch.ts:613-623 | every anchor-table candidate is at least the fuel's minimum |
| BatchTable.RupeeOnly | lib/myFuelSourceBatch.ts:492 | the '₹' candidates are exactly the candidates marked with a rupee sign |
| BatchTable.LargestIndex | lib/myFuelSourceBatch.ts:493-495 | the reduce picks a largest value, and the earliest of equal largest values |
| BatchTable.Largest | lib/myFuelSourceBatch.ts:493-495 | the chosen candidate is one of them and none is larger |
| BatchTable.ChosenPriceProps | lib/myFuelSourceBatch.ts:492-495 | the chosen price belongs to a '₹' candidate when there is one, and no candidate of the preferred group is dearer |
| BatchTable.RowEntry | lib/myFuelSourceBatch.ts:452-498 | a row's entry has a non-empty city key, an in-range price and no slug |
| BatchTable.RowEntryCity | lib/myFuelSourceBatch.ts:453-467 | a row yields an entry only with two non-empty cells and no header words; its city is the first city cell, and it does not name another state |
| BatchTable.RowEntryPrice | lib/myFuelSourceBatch.ts:471-497 | a row's price is the largest in-range candidate, taken among the '₹' ones when any exist |
| BatchTable.Keyed | lib/myFuelSourceBatch.ts:468-469 | an entry is stored under its city's normal form |
| BatchTable.AddRowsRanged | lib/myFuelSourceBatch.ts:469-497 | running addRow never overwrites a key, and every entry stays keyed by its city and priced in range |
| BatchTable.AddRowsFirstWins | lib/myFuelSourceBatch.ts:469-497 | from an empty map a city is present exactly when some row yields it, with the entry of the first such row |
| BatchTable.PriceLinkSlugAt | lib/myFuelSourceBatch.ts:528 | a price-link match at a position yields a non-empty slug |
| BatchTable.FindPriceLinkSlug | lib/myFuelSourceBatch.ts:557-564 | the slug of the leftmost price-link match is never empty |
| BatchTable.PriceLinks | lib/myFuelSourceBatch.ts:570 | the considered links are exactly those whose href contains "-price-in-": each kept link sits at an increasing page position, and every matching link is kept |
| BatchTable.LinkCity | lib/myFuelSourceBatch.ts:541-555 | a link yields a city only if it is a fuel price link, not a state page link, and its text is non-empty |
| BatchTable.FirstCityLink | lib/myFuelSourceBatch.ts:594-598 | the row's link yields a city and every link before it yields none; none is found only when no link yields a city |
| BatchTable.LinkRowEntry | lib/myFuelSourceBatch.ts:592-631 | an anchor-table row's entry has a non-empty city key, a price not below the minimum and the link's slug |
| BatchTable.AddLinkRowsProps | lib/myFuelSourceBatch.ts:606-631 | running the anchor table's rows never overwrites a key, and every entry stays keyed, at least the minimum and with a slug |
| BatchTable.AndamanHeadingCounterexample | lib/myFuelSourceBatch.ts:531-539 | as written, the heading of the Andaman and Nicobar Islands table counts as another state on that state's own page; the corrected test does not |
| BatchTable.LettersNotInAndamanHeading | lib/myFuelSourceBatch.ts:531-539 | names holding a letter the Andaman heading lacks, or "assam" or "orissa", do not occur in it |
| BatchTable.StateKeyLetters | lib/myFuelSourceBatch.ts:21-67 | every other state's name in the table holds such a letter or is "assam" or "orissa" |
| BatchTable.AnchorCandidate | lib/myFuelSourceBatch.ts:567-588 | a table gives at most one anchor candidate, tagged with its own position |
| BatchTable.AnchorTableScores | lib/myFuelSourceBatch.ts:566-588 | every anchor candidate refers to a table of the page |
| BatchTable.HeaderCandidate | lib/myFuelSourceBatch.ts:640-665 | a table gives at most one header candidate, tagged with its own position |
| BatchTable.HeaderTableScores | lib/myFuelSourceBatch.ts:639-665 | every header candidate refers to a table of the page |
| BatchTable.ScoreAnchorTables | lib/myFuelSourceBatch.ts:566-588 | the loop over the tables pushes exactly the anchor candidates, in page order |
| BatchTable.ScoreHeaderTables | lib/myFuelSourceBatch.ts:639-665 | the loop over the tables pushes exactly the header candidates, in page order |
| BatchTable.BestTable | lib/myFuelSourceBatch.ts:667 | there is a best table exactly when there is a candidate, and it is one of them |
| BatchTable.BestTableIsFirstMax | lib/myFuelSourceBatch.ts:667 | the stable sort by descending score puts first the earliest candidate with the highest score |
| BatchTable.AnchorTables | lib/myFuelSourceBatch.ts:590-633 | the anchor strategy fills the map row by row as its specification function does |
| BatchTable.HeaderTables | lib/myFuelSourceBatch.ts:667-676 | the header strategy fills the map row by row as its specification function does |
| BatchTable.FallbackTables | lib/myFuelSourceBatch.ts:678-703 | the fallback loop over all header-matched tables fills the map as its specification function does |
| BatchTable.FetchCityPriceMap | lib/myFuelSourceBatch.ts:431-709 | the whole procedure returns the map its specification function defines |
| BatchTable.AnchorStageEntries | lib/myFuelSourceBatch.ts:590-633 | every entry of the anchor strategy is keyed, at least the minimum and has a slug |
| BatchTable.HeaderStageRanged | lib/myFuelSourceBatch.ts:667-676 | every entry of the header strategy is keyed and priced in range |
| BatchTable.FallbackRanged | lib/myFuelSourceBatch.ts:678-703 | every entry of the fallback is keyed and priced in range |
| BatchTable.CityPriceMapEntries | lib/myFuelSourceBatch.ts:431-709 | every entry of a page's map is keyed by its city's normal form and at least the fuel's minimum; one without a slug is in range |
| BatchTable.PlainRowEntry | lib/myFuelSourceBatch.ts:393-405 | a plain table row yields a non-empty city key and a non-negative number |
| BatchTable.FetchPriceTableMap | lib/myFuelSourceBatch.ts:390-406 | the row loop builds the map its specification fold defines |
| BatchTable.PlainRowsLastWins | lib/myFuelSourceBatch.ts:402-405 | a key is present exactly when some row yields it, and holds the value of the last such row |
| BatchKeys.PriceAt | lib/myFuelSourceBatch.ts:1200-1203 | a key's price is present exactly when the map has the key, and is that entry's price |
| BatchKeys.EntryKeys | lib/myFuelSourceBatch.ts:945-947 | configured entries whose name normalises to nothing give no key |
| BatchKeys.SetIfFalsyStep | lib/myFuelSourceBatch.ts:948-949 | one entry sets its key only when the key is non-empty and not yet set to a non-empty value |
| BatchKeys.AllCityKeysProps | lib/myFuelSourceBatch.ts:926-953 | the city keys are exactly the page keys and the configured keys, each once; every configured key is among them |
| BatchKeys.SlugCityNamesKeyed | lib/myFuelSourceBatch.ts:945-948 | every configured name is stored under its own normal form |
| BatchKeys.KeyListsStep | lib/myFuelSourceBatch.ts:950-951 | one configured entry adds its key to both key sets unless they hold it already |
| BatchKeys.ReadSlugEntries | lib/myFuelSourceBatch.ts:938-953 | the loop over the configured entries builds the name map, the slug map and both key sets as their specification functions define |
| BatchKeys.ValidValues | lib/myFuelSourceBatch.ts:956-961 | the valid prices of a map are at most one per key and all in range |
| BatchKeys.LowCoverage | lib/myFuelSourceBatch.ts:1124-1129 | coverage is below a quarter exactly when there are no cities or fewer than a quarter of them have a valid price |
| BatchKeys.SlugFallback | lib/myFuelSourceBatch.ts:983-988 | a key with no page, link or configured slug gets a slug exactly when its name holds a letter or digit |
| BatchKeys.NameOfKeyed | lib/myFuelSourceBatch.ts:975-981 | with every map keyed by normal forms, a key's name normalises back to that key |
| BatchKeys.SampleKeys | lib/myFuelSourceBatch.ts:1049-1058 | at most two samples, each a city key with a valid price and a slug; they are every such key of some prefix of the keys, in order, and that prefix is the whole list unless two were found |
| BatchKeys.SampleKeysAllWhenFew | lib/myFuelSourceBatch.ts:1049-1058 | with fewer than two samples, every key with a valid price and a slug is sampled |
| BatchKeys.CheckSample | lib/myFuelSourceBatch.ts:1064-1074 | one sample disagrees when both prices are valid and differ by more than the fuel's tolerance |
| BatchKeys.CheckSamples | lib/myFuelSourceBatch.ts:1063-1087 | the sample loop flags a mismatch exactly when some sample disagrees |
| BatchKeys.KeysToFetch | lib/myFuelSourceBatch.ts:1120-1129 | with low coverage or a mismatch, a prefix of at most 80 of all keys, configured first; otherwise a prefix of at most 25 prioritised suspects |
| BatchKeys.ConfiguredFirstOrder | lib/myFuelSourceBatch.ts:1102-1106 | the configured-first comparison is a total preorder with two classes, configured and not |
| BatchKeys.SortedSplits | lib/myFuelSourceBatch.ts:1102-1106 | a list sorted configured-first is its configured keys followed by the rest, each in original order |
| BatchKeys.PrioritizedOrder | lib/myFuelSourceBatch.ts:1089-1118 | the prioritised suspects are the missing or invalid keys of configured cities, then the other missing or invalid keys, then the outliers |
| BatchKeys.UnionKeys | lib/myFuelSourceBatch.ts:1131-1134 | the keys to fetch are those of either list, each once |
| BatchPipeline.WriteKeepsNames | lib/myFuelSourceBatch.ts:1151 | an entry written under the key's own name changes no key's name |
| BatchPipeline.SameSlugs | lib/myFuelSourceBatch.ts:983-988 | lookups agreeing on the petrol map, the link slugs, the configured slugs and the name agree on the slug |
| BatchPipeline.KeralaOverride | lib/myFuelSourceBatch.ts:990-1012 | the Kerala loop writes the LPG and CNG table prices into the maps as its specification fold defines |
| BatchPipeline.KeralaOverrideEffect | lib/myFuelSourceBatch.ts:997-1008 | a listed key with a valid Kerala table price takes it under its name; every other entry stays as it was |
| BatchPipeline.PetrolSlugAt | lib/myFuelSourceBatch.ts:1038-1039 | a petrol-link match yields a non-empty slug |
| BatchPipeline.FindPetrolSlug | lib/myFuelSourceBatch.ts:1038-1040 | the leftmost petrol-link match yields a non-empty slug |
| BatchPipeline.ReadLinkSlugs | lib/myFuelSourceBatch.ts:1034-1045 | the link loop builds the link-slug map as its specification fold defines |
| BatchPipeline.LinkSlugsProps | lib/myFuelSourceBatch.ts:1034-1045 | every link slug is non-empty and belongs to a city key; a key's slug is that of the first link yielding the key |
| BatchPipeline.RefetchStep | lib/myFuelSourceBatch.ts:1141-1163 | one re-fetch step replaces a key's entry exactly when the key is listed, has a slug and the page price is valid |
| BatchPipeline.RefetchKey | lib/myFuelSourceBatch.ts:1140-1164 | one key's re-fetch writes both maps as the specification step does and keeps every key's name |
| BatchPipeline.RefetchFuel | lib/myFuelSourceBatch.ts:1145-1163 | one fuel's re-fetch of a key writes that fuel's map as the specification step does and keeps every key's name |
| BatchPipeline.Refetch | lib/myFuelSourceBatch.ts:1131-1167 | the re-fetch over the union of both lists gives the maps of its specification fold |
| BatchPipeline.RefetchEffect | lib/myFuelSourceBatch.ts:1136-1167 | a re-fetched price replaces an entry only for a listed key with a slug and a valid page price; every other entry stays |
| BatchPipeline.UpsertKeepsNames | lib/myFuelSourceBatch.ts:1002-1007 | writes whose entries carry their key's name keep every key's name |
| BatchPipeline.FinalGas | lib/myFuelSourceBatch.ts:1205-1232 | the final LPG or CNG price is none for Lakshadweep; otherwise the current valid price unless filtered as suspect, else the last known valid one unless filtered |
| BatchPipeline.RecordFor | lib/myFuelSourceBatch.ts:1191-1243 | a key's record carries the state, the key's name, today's date, petrol and diesel exactly when valid, and no LPG or CNG for Lakshadweep |
| BatchPipeline.RecordsFor | lib/myFuelSourceBatch.ts:1191-1243 | one record per key, in key order |
| BatchPipeline.BuildRecords | lib/myFuelSourceBatch.ts:1188-1244 | the record loop pushes each key's record and its city name |
| BatchPipeline.RecordsForProps | lib/myFuelSourceBatch.ts:1191-1243 | the records are of the state and date, named by their keys, pairwise distinct in (state, city, date), with petrol and diesel valid when present |
| BatchRun.CityNames | lib/myFuelSourceBatch.ts:1234 | the names pushed are the records' city names, in order |
| BatchRun.RefetchPhase | lib/myFuelSourceBatch.ts:1029-1168 | the link slugs, sample check, fetch lists and re-fetch give the lookup of their specification |
| BatchRun.ComputeLookup | lib/myFuelSourceBatch.ts:919-1168 | the maps the records are read from are computed as their specification defines |
| BatchRun.PlanState | lib/myFuelSourceBatch.ts:915-1244 | the city keys, the records and the names of one state are those of their specification functions |
| BatchRun.EntryKeysNormal | lib/myFuelSourceBatch.ts:946 | configured keys are normal forms |
| BatchRun.CityKeysNormal | lib/myFuelSourceBatch.ts:926-953 | the city keys are normal forms, none repeated |
| BatchRun.KeralaKeepsNames | lib/myFuelSourceBatch.ts:997-1008 | the Kerala tables write every entry under its key's name |
| BatchRun.RefetchedKeepsNames | lib/myFuelSourceBatch.ts:1030-1167 | the link slugs and the re-fetch leave every key's name unchanged |
| BatchRun.RefetchKeepsNames | lib/myFuelSourceBatch.ts:1136-1167 | the re-fetch writes every entry under its key's name |
| BatchRun.FinalNames | lib/myFuelSourceBatch.ts:1192-1198 | the final maps name every key as the fetched maps do |
| BatchRun.StateRecordsProps | lib/myFuelSourceBatch.ts:1188-1244 | a state's records: one per city key, of the state and the date, named by their keys, distinct in (state, city, date), petrol and diesel valid when present |
| BatchRun.ChunkWritesProps | lib/myFuelSourceBatch.ts:1251-1256 | the chunks are non-empty, of at most 500 rows, as many as the count divided by 500 rounding up, and write every record once in order |
| BatchRun.WriteChunks | lib/myFuelSourceBatch.ts:1251-1256 | the chunk loop upserts every record and counts them, changing nothing else |
| BatchRun.DayReplaced | lib/myFuelSourceBatch.ts:1246-1256 | after a state's writes its rows for the day are exactly its records, and every other row is as it was |
| BatchRun.WriteState | lib/myFuelSourceBatch.ts:1246-1257 | one state's writes replace its roster, its day and count its records |
| BatchRun.ProcessState | lib/myFuelSourceBatch.ts:913-1261 | one state's task changes the store and the results as the specification step does |
| BatchRun.CodeFilter | lib/myFuelSourceBatch.ts:888-892 | a code is asked for exactly when some given code, upper-cased and trimmed, is two capital letters equal to it |
| BatchRun.SelectedStates | lib/myFuelSourceBatch.ts:894-896 | with no code asked for all states run; otherwise those whose upper-cased code was asked for |
| BatchRun.StateRows | lib/myFuelSourceBatch.ts:907 | the states registered are the selected ones' codes and names |
| BatchRun.ScrapeStates | lib/myFuelSourceBatch.ts:880-1267 | with no states nothing is written and the totals are zero; otherwise the store and results follow the per-state folds |
| BatchRun.SummaryTotals | lib/myFuelSourceBatch.ts:1247-1257 | the results count every state, fetched, upserts and cities each equal the records written, and a state adds an error exactly when it has no city keys |
| BatchSnapshot.FirstUnitMatch | lib/myFuelSourceBatch.ts:239-253 | the chosen block is the first whose text shows the fuel's unit |
| BatchSnapshot.CylinderPrice | lib/myFuelSourceBatch.ts:268-278 | the block price is kept, or for LPG below the minimum replaced by the in-range ×14.2 cylinder price |
| BatchSnapshot.BlockDate | lib/myFuelSourceBatch.ts:259-262 | the chosen block's date is its parsed updated date, which has the `YYYY-MM-DD` shape |
| BatchSnapshot.BlockPrice | lib/myFuelSourceBatch.ts:264-267 | the block price is the parsed price of the chosen block's trimmed text |
| BatchSnapshot.FallbackDate | lib/myFuelSourceBatch.ts:288-292 | the block's date wins; otherwise the page's first updated date |
| BatchSnapshot.ChosenBlockProps | lib/myFuelSourceBatch.ts:248-256 | there is a chosen block exactly when there are blocks; it is the first showing the unit, or the first block when none does |
| BatchSnapshot.FetchSingleFuelPrice | lib/myFuelSourceBatch.ts:230-311 | no price when the fetch fails; the chosen block's price or its cylinder conversion whenever it parses; the intro's only when the block gives none |
| BatchSnapshot.FetchSingleFuelDate | lib/myFuelSourceBatch.ts:258-292 | the page date is the chosen block's when it parses, and every date has the `YYYY-MM-DD` shape |
| BatchSnapshot.FirstDate | lib/myFuelSourceBatch.ts:750-755 | the page date is some page's date and every page before it in petrol, diesel, LPG, CNG order has none; none exactly when no page has a date |
| BatchSnapshot.SnapshotWithSlugProps | lib/myFuelSourceBatch.ts:727-767 | a snapshot exists exactly when some page gave a price; it carries the four prices, and its date is the run date or a later page date |
| BatchSnapshot.StateTasks | lib/myFuelSourceBatch.ts:787 | each configured city of a state becomes one task, in order |
| BatchSnapshot.ListTasks | lib/myFuelSourceBatch.ts:782-788 | the nested loops push the tasks of the specification |
| BatchSnapshot.TasksProps | lib/myFuelSourceBatch.ts:786-788 | a task exists exactly for each configured city of each state |
| BatchSnapshot.TaskRecordProps | lib/myFuelSourceBatch.ts:817-865 | a task writes a record exactly when its pages gave a price; the record is of the task's state and city, dated no earlier than today, with every present price in range |
| BatchSnapshot.TasksAccounted | lib/myFuelSourceBatch.ts:817-866 | every task either writes a record or reports "no data"; the records written are those of the tasks, in order |
| BatchSnapshot.SingleWrites | lib/myFuelSourceBatch.ts:857-865 | one single-row upsert per record |
| BatchSnapshot.RunTask | lib/myFuelSourceBatch.ts:816-869 | a task with no snapshot adds "no data" and writes nothing; otherwise its record is upserted and fetched and upserts each grow by one |
| BatchSnapshot.RunTasks | lib/myFuelSourceBatch.ts:813-875 | the task loop upserts the records in task order and the counts and errors follow |
| BatchSnapshot.ScrapeAll | lib/myFuelSourceBatch.ts:781-878 | the tasks of every configured city run in order, upserting each record and counting them |
| BatchDates.MonthNumber | lib/myFuelSourceBatch.ts:192-220 | a month name maps to a month between 1 and 12 |
| BatchDates.MatchAt | lib/myFuelSourceBatch.ts:184 | a match of the date pattern at a position has a one- or two-digit day, a letter word and a four-digit year |
| BatchDates.FindDate | lib/myFuelSourceBatch.ts:184-185 | the leftmost match of the date pattern is well formed |
| BatchDates.ParseUpdatedDateShape | lib/myFuelSourceBatch.ts:179-226 | every date produced has the `YYYY-MM-DD` shape |
| BatchDates.FindRenderedDate | lib/myFuelSourceBatch.ts:181-185 | cleaning leaves a rendered date unchanged and the search finds its three groups |
| BatchDates.ParseRenderedDate | lib/myFuelSourceBatch.ts:179-226 | a date such as "13th Dec, 2025" reads as its year, the month of its name in any letter case, and its day |
| BatchDates.ParseRenderedValidDate | lib/myFuelSourceBatch.ts:179-226 | a calendar date rendered in the site's style reads back as that date's ISO 8601 text |
| BatchDates.ParseUpdatedDateNoDigit | lib/myFuelSourceBatch.ts:181-185 | text without a digit has no date |
| BatchDates.UnknownMonthGivesNull | lib/myFuelSourceBatch.ts:219-220 | a date with an unknown month word is not read |
| BatchDates.FindDateSkipsPrefix | lib/myFuelSourceBatch.ts:184 | text before the date with no digit in it does not change the match |
| BatchDates.AsWrittenAgreesElsewhere | lib/myFuelSourceBatch.ts:192-220 | the as-written and corrected readers agree on every text whose month word is not "constructor" |
| BatchDates.ParseRenderedConstructor | lib/myFuelSourceBatch.ts:192-225 | as written, "12th Constructor, 2025" yields text without the `YYYY-MM-DD` shape; the corrected reader returns none |
| Numbers.FindNumeral | lib/myFuelSourceBatch.ts:132 | the leftmost numeral match is well formed |
| Numbers.FindNumeralIff | lib/myFuelSourceBatch.ts:132-133 | a numeral is found exactly when the text holds a digit |
| Numbers.ParsePriceSomeIff | lib/myFuelSourceBatch.ts:122-136 | a price is read exactly when the text holds a digit |
| Numbers.ParsePriceOfRupee | lib/myFuelSourceBatch.ts:126-130 | a numeral after '₹' wins over any earlier one |
| Numbers.ParsePriceOfRenderedAmount | lib/myFuelSourceBatch.ts:122-136 | a rupee amount with two decimals reads back as its value |
| Numbers.ParseDecimalPrefix | lib/myFuelSourceBatch.ts:403-404 | `parseFloat` of digits and dots is a number exactly when the text starts with a digit or with a dot and a digit, and is never negative |
| Numbers.ParseLoosePrice | lib/myFuelSource.ts:61-66 | a price read after dropping all but digits and dots is never negative |
| Numbers.ParseLoosePriceOfRenderedAmount | lib/myFuelSource.ts:61-66 | a rendered amount reads back as its value |
| Numbers.ParseInt | app/api/fuel-prices/route.ts:16 | `parseInt` gives a number only when the text holds a digit |
| Numbers.ParseIntOfNat | app/api/fuel-prices/route.ts:16 | `parseInt` reads back any non-negative integer written in decimal |
| Numbers.ParseNumber | lib/fuelStore.ts:193-200 | `Number` of blank text is 0 |
| Numbers.ParseNumberOfRenderedAmount | lib/fuelStore.ts:193-200 | `Number` reads back a rendered amount |
| Civil.ParseYmd | lib/seoFuelRepo.ts:34-39 | the three numbers are read exactly when the text has the `YYYY-MM-DD` shape |
| Civil.UtcDate | lib/seoFuelRepo.ts:41 | `Date.UTC` with overflowing months and days always lands on a calendar date |
| Civil.UtcDateOfValid | lib/seoFuelRepo.ts:41 | `Date.UTC` on a calendar date from year 100 on is that date |
| Civil.UtcDateTwoDigitYear | lib/seoFuelRepo.ts:41 | `Date.UTC` reads the years 0..99 as 1900..1999 |
| Civil.ParseFormatDate | lib/seoFuelRepo.ts:43-46 | a calendar date with a four-digit year formats to text that reads back as its own numbers |
| Civil.AddDaysOfValid | lib/seoFuelRepo.ts:33-47 | on a calendar date with a four-digit year, addDays is the shift by that many days |
| Civil.AddDaysRoundTrip | lib/seoFuelRepo.ts:33-47 | adding k days and then -k days gives back the date, while both have four-digit years |
| Civil.ShiftInverse | lib/seoFuelRepo.ts:42 | shifting back undoes shifting forward, for every date and count |
| Civil.ShiftBackNotAfter | lib/seoFuelRepo.ts:42 | a shift by a count that is not positive never moves forward |
| Civil.FormatDateMonotone | lib/seoFuelRepo.ts:43-46 | the `YYYY-MM-DD` text of an earlier date sorts first |
| Civil.NextDay | lib/seoFuelRepo.ts:41-42 | the day after a calendar date is a calendar date |
| Civil.PrevDay | lib/seoFuelRepo.ts:41-42 | the day before a calendar date is a calendar date |
| Civil.PrevOfNext | lib/seoFuelRepo.ts:41-42 | stepping one day forward and one back returns the date |
| Civil.NextOfPrev | lib/seoFuelRepo.ts:41-42 | stepping one day back and one forward returns the date |
| Civil.Shift | lib/seoFuelRepo.ts:41-42 | shifting a calendar date by any number of days gives a calendar date |
| Civil.ShiftSucc | lib/seoFuelRepo.ts:41-42 | shifting by k + 1 days is the day after shifting by k |
| FuelDb.ReplacedCities | lib/fuelStore.ts:109-117 | after the replacement a state's roster is exactly the names given, and other states' rows are untouched |
| FuelDb.WithoutDay | lib/fuelStore.ts:119-126 | deleting a state's day removes exactly the rows of that state and date |
| FuelDb.UpsertedPricesStores | lib/fuelStore.ts:169-182 | upserting rows with distinct keys stores each under its (state, city, date) key and leaves every other key as it was |
| FuelDb.Store.UpsertStates | lib/fuelStore.ts:92-98 | an empty list changes nothing; otherwise the states are upserted by code, and nothing else changes |
| FuelDb.Store.ReplaceCitiesForState | lib/fuelStore.ts:100-117 | the state's roster is deleted and the names upserted, the upsert skipped for no names; nothing else changes |
| FuelDb.Store.DeleteFuelPricesForStateDate | lib/fuelStore.ts:119-126 | the rows of the state and date are deleted and nothing else changes |
| FuelDb.Store.UpsertFuelPrices | lib/fuelStore.ts:176-182 | the rows are upserted by key, an empty batch writes nothing, and nothing else changes |
| FuelStore.LookupCityName | lib/fuelStore.ts:8-18 | the trimmed name, except that Andhra Pradesh's "Kadapa" in any letter case is looked up as "Cuddapah" |
| FuelStore.DisplayCityName | lib/fuelStore.ts:20-29 | the trimmed name, except that Andhra Pradesh's "Cuddapah" in any letter case is shown as "Kadapa" |
| FuelStore.DisplayThenLookup | lib/fuelStore.ts:8-29 | looking up the name a stored city is shown under finds that stored city again |
| FuelStore.LookupThenDisplay | lib/fuelStore.ts:8-29 | Kadapa is looked up as Cuddapah and shown as Kadapa again; every other name shows the same whether looked up first or not |
| FuelStore.ToNumberOrNull | lib/fuelStore.ts:193-200 | a finite number is kept, null and non-finite values give null, a blank string gives 0 |
| FuelStore.ToNumberOrNullRoundTrip | lib/fuelStore.ts:193-200 | a price read back from a column, as a number, null or two-decimal text, is that price |
| FuelStore.NormalizeToYmd | lib/fuelStore.ts:202-208 | a date exactly when the first ten characters of the trimmed text read `YYYY-MM-DD`, and then those characters |
| FuelStore.NormalizeToYmdProps | lib/fuelStore.ts:202-208 | a `YYYY-MM-DD` text is its own normal form and normalising is idempotent |
| FuelStore.ApplyOverrides | lib/fuelStore.ts:210-218 | Lakshadweep rows lose LPG and CNG; every other row is unchanged |
| FuelStore.ApplyOverridesIdempotent | lib/fuelStore.ts:210-218 | the override applied twice is the override applied once |
| FuelStore.LatestByDateDistinct | lib/fuelStore.ts:257-258 | the rows the date map keeps have pairwise distinct dates |
| FuelStore.LatestByDateDates | lib/fuelStore.ts:257-258 | the map keeps a row for a date exactly when some row has that date |
| FuelStore.SortedRowsLatest | lib/fuelStore.ts:255-260 | the history rows ascend strictly by date, cover exactly the rows' dates, and each is the last row with its date |
| FuelStore.HistoryRowFacts | lib/fuelStore.ts:240-253 | the converted rows have the dates the query rows read as, and carry the Lakshadweep override |
| FuelStore.FuelHistory | lib/fuelStore.ts:240-260 | one row per date, dates ascending, exactly the dates the query rows read as, each the last converted row with its date |
| FuelStore.HistorySince | lib/fuelStore.ts:226-228 | the history window starts on a calendar date |
| FuelStore.HistorySinceSpan | lib/fuelStore.ts:226-228 | the window ends today and covers `max(2, days)` calendar days |
| FuelStore.ChartPoint | lib/fuelStore.ts:276-279 | a row gives a point exactly when its date reads `YYYY-MM-DD` and the fuel's price is present |
| FuelStore.BuildChartData | lib/fuelStore.ts:263-293 | as many values as labels, each date once, exactly the dates with a price, each value the last row's for its date, labels ascending for `YYYY-MM-DD` rows |
| FuelStore.ChartLabel | lib/fuelStore.ts:275-290 | a date is a label exactly when some row has a point for it |
| FuelStore.ChartAscending | lib/fuelStore.ts:268-290 | rows with `YYYY-MM-DD` dates give labels in ascending order |
| FuelStore.TrendPointOfRow | lib/fuelStore.ts:301-309 | a row gives a trend point exactly when its date normalises, and the point is the row under that date |
| FuelStore.BuildTrendPoints | lib/fuelStore.ts:295-313 | one point per date, ascending, exactly the dates the rows read as, each the point of the last row with its date |
| FuelStore.FindByDate | lib/fuelStore.ts:331-332 | the first row with the date, none exactly when no row has it |
| FuelStore.TodayPrices | lib/fuelStore.ts:331-339 | today's and yesterday's rows exist exactly when a row has that date, and are the first such rows with the override applied |
| FuelStore.LatestNonNullPriceMap | lib/fuelStore.ts:371-381 | each normal city key gets the price of its first row, the newest; a key is present exactly when some row yields it |
| FuelStore.LatestNonNullProps | lib/fuelStore.ts:371-381 | the first-wins fold keys by non-empty normal forms and keeps the first yielding row's price |
| SeoFuelRepo.SnapshotOverrides | lib/seoFuelRepo.ts:49-55 | Lakshadweep snapshots lose LPG and CNG; every other snapshot is unchanged |
| SeoFuelRepo.SnapshotOverridesIdempotent | lib/seoFuelRepo.ts:49-55 | the override applied twice is the override applied once |
| SeoFuelRepo.Overridden | lib/seoFuelRepo.ts:188 | every candidate row gets the override, in order |
| SeoFuelRepo.DashesToSpaces | lib/seoFuelRepo.ts:131 | each hyphen becomes a space and every other character is kept |
| SeoFuelRepo.NormalizeCityParamShape | lib/seoFuelRepo.ts:129-134 | the normalised parameter has no hyphen, single spaces and no space at either end |
| SeoFuelRepo.NormalizeCityParamIdempotent | lib/seoFuelRepo.ts:129-134 | normalising the normalised parameter changes nothing |
| SeoFuelRepo.StripWildcards | lib/seoFuelRepo.ts:145 | no `%` or `_` is left, and a token without them is kept |
| SeoFuelRepo.PatternOfEmpty | lib/seoFuelRepo.ts:136-148 | the empty query gives no pattern |
| SeoFuelRepo.PatternNoneIff | lib/seoFuelRepo.ts:136-148 | no pattern exactly when the query has no letter or digit |
| SeoFuelRepo.BuildCityIlikePatternProps | lib/seoFuelRepo.ts:136-148 | the pattern is `%`-framed and its words are the first eight lower-cased words of the query, none holding a wildcard |
| SeoFuelRepo.FindFirst | lib/seoFuelRepo.ts:193 | `find` returns the first element satisfying the test, none exactly when no element does |
| SeoFuelRepo.ChooseInState | lib/seoFuelRepo.ts:188-207 | not found exactly when there are no candidates; otherwise the candidates are reported |
| SeoFuelRepo.ChooseWithState | lib/seoFuelRepo.ts:191-196 | with a state asked for, a city resolves exactly when some candidate is in it, and to the first such candidate |
| SeoFuelRepo.ChooseWithoutState | lib/seoFuelRepo.ts:198-207 | without a state, a city resolves exactly when all candidates share the first one's state, and to the first candidate |
| SeoFuelRepo.ResolveCityFromParamNotFound | lib/seoFuelRepo.ts:165-189 | not found exactly when there is no pattern, no latest date or no matching row |
| SeoFuelRepo.ResolveCityFromParamChoice | lib/seoFuelRepo.ts:185-207 | once found, the candidates are the matching rows with the override, and a resolved snapshot is one of them |
| SeoFuelRepo.ChooseByName | lib/seoFuelRepo.ts:252-263 | not found exactly when there are no candidates; otherwise the candidates are reported |
| SeoFuelRepo.ChooseByNameProps | lib/seoFuelRepo.ts:255-263 | resolved to the first candidate named as the query, or to the only candidate; ambiguous means several candidates and none named as the query |
| SeoFuelRepo.ResolveCityInStateNotFound | lib/seoFuelRepo.ts:221-253 | not found exactly when there is no state code, no pattern, no latest date or no matching row of the state |
| SeoFuelRepo.ResolveCityInStateChoice | lib/seoFuelRepo.ts:252-263 | once found, the result is resolved to the first candidate named as the query or the only candidate, else ambiguous |
| SeoFuelRepo.KadapaResolvesToCuddapah | lib/seoFuelRepo.ts:230-233 | in Andhra Pradesh a query for Kadapa searches for Cuddapah |
| SeoFuelRepo.KeptInBand | lib/seoFuelRepo.ts:338-344 | every petrol row kept is priced strictly between 40 and 250 |
| SeoFuelRepo.SortedExtremes | lib/seoFuelRepo.ts:357-363 | in a list sorted by price the first is the cheapest and the last the dearest |
| SeoFuelRepo.TopFive | lib/seoFuelRepo.ts:371 | the first five of a sorted list are sorted and priced at most every row left out |
| SeoFuelRepo.SumBounds | lib/seoFuelRepo.ts:359 | the sum lies between the count times the lowest and the count times the highest price |
| SeoFuelRepo.MeanWithin | lib/seoFuelRepo.ts:359-360 | the mean of prices in a range lies in that range |
| SeoFuelRepo.MeanOfSorted | lib/seoFuelRepo.ts:357-363 | the mean of a sorted list lies between its first and last prices |
| SeoFuelRepo.CheapestPetrolSummaryCount | lib/seoFuelRepo.ts:323-372 | no summary without a latest date; the count is the number of rows kept, and with none there is no average, cheapest, dearest or top five |
| SeoFuelRepo.CheapestPetrolSummaryExtremes | lib/seoFuelRepo.ts:357-370 | the cheapest and dearest are kept rows bounding every kept price, and the average lies between them |
| SeoFuelRepo.CheapestPetrolSummaryTop5 | lib/seoFuelRepo.ts:371 | the top five are the cheapest kept rows, at most five, ascending |
| SeoFuelRepo.CityHistorySinceHoldsLatest | lib/seoFuelRepo.ts:297-300 | the history window holds the latest date: `since` is exactly `max(days, 1) - 1` days before it and sorts no later |
| SeoFuelRepo.CitiesInStateLatest | lib/seoFuelRepo.ts:105-124 | nothing without a code or a latest date; otherwise each queried name once, listed in the order of its first occurrence |
| MyFuelSource.KeepAlnum | lib/myFuelSource.ts:116 | only letters and digits remain, and text made only of them is kept |
| MyFuelSource.NormalizeNameShape | lib/myFuelSource.ts:113-118 | a normalised name holds only lower-case letters and digits |
| MyFuelSource.NormalizeNameIdempotent | lib/myFuelSource.ts:113-118 | normalising a normalised name changes nothing |
| MyFuelSource.NormalizeNameConcat | lib/myFuelSource.ts:113-118 | the name of a concatenation is the concatenation of the names |
| MyFuelSource.NormalizeNameIgnoresSeparator | lib/myFuelSource.ts:113-118 | a space, hyphen or bracket between two parts does not change the name |
| MyFuelSource.ChosenCellIsSecondOrOnly | lib/myFuelSource.ts:79 | the price cell is the second one, or the only one of a one-cell row |
| MyFuelSource.LabelledRowPrice | lib/myFuelSource.ts:72-82 | a row without cells gives no price, and any price read is non-negative |
| MyFuelSource.LabelledRowOfRendered | lib/myFuelSource.ts:77-81 | a row mentioning the fuel with an amount in its second cell gives that amount |
| MyFuelSource.ParseFuelFromHtml | lib/myFuelSource.ts:68-97 | the row loop returns at the first row with a price, then tries the body capture, as its specification function does |
| MyFuelSource.FuelFromPageFirstRow | lib/myFuelSource.ts:68-97 | a price from the rows comes from the first row giving one; the body capture is read only when no row gives a price |
| MyFuelSource.FetchFuelFromPage | lib/myFuelSource.ts:99-111 | a failed fetch gives no price; otherwise the page's price |
| MyFuelSource.KeralaRowPrice | lib/myFuelSource.ts:136-144 | rows with fewer than two cells or no name are skipped; a price comes from a row whose name contains or is contained in the city's |
| MyFuelSource.KeralaTableFuel | lib/myFuelSource.ts:120-150 | the Kerala row loop returns the price of its specification function |
| MyFuelSource.KeralaRow | lib/myFuelSource.ts:131-144 | the test of one Kerala row gives that row's price of the specification function |
| MyFuelSource.KeralaFuelFirstMatch | lib/myFuelSource.ts:130-146 | a Kerala price comes from the first row naming the city with a parsable price |
| MyFuelSource.KeralaRowOfRendered | lib/myFuelSource.ts:136-144 | a row named as the city in any case and spacing gives the amount in its second cell |
| MyFuelSource.CitySnapshot | lib/myFuelSource.ts:188-205 | no snapshot exactly when all four prices are missing; otherwise the city's record with those prices |
| MyFuelSource.WithKerala | lib/myFuelSource.ts:179-186 | the Kerala table is consulted only in Kerala and only for a fuel whose page gave no price |
| MyFuelSource.FetchFuelSnapshotForCity | lib/myFuelSource.ts:152-206 | the snapshot is that of the specification function, dated by the override or today |
| MyFuelSource.SnapshotForCityProps | lib/myFuelSource.ts:152-206 | a snapshot exists exactly when some price was found, and carries the page prices with the Kerala fallback |
| MyFuelSource.FetchStateSnapshots | lib/myFuelSource.ts:217-220 | one state's configured cities are fetched in order, cities without any price left out |
| MyFuelSource.FetchFuelSnapshotsForAllConfiguredCities | lib/myFuelSource.ts:208-224 | every configured city is fetched in order and those without any price are left out |
| MyFuelSource.ConfiguredSnapshotsProps | lib/myFuelSource.ts:208-224 | a snapshot is listed exactly when it is the snapshot of some configured city, and carries the run's date and some price |
| Common.NormalizeKeyShape | lib/seoFuelRepo.ts:213-219 | the comparison key is lower-case, trimmed, with single spaces between its words |
| Common.NormalizeKeyIdempotent | lib/seoFuelRepo.ts:213-219 | normalising a key again changes nothing |
| Common.NormalizeKeyEmptyIff | lib/seoFuelRepo.ts:213-219 | the key is empty exactly when the text holds no letter or digit |
| DiscoverCoverage.BuildStateNameToCodeMap | scripts/discoverGoodreturnsCoverage.ts:44-50 | the loop over the state table builds the name-to-code map of its specification |
| DiscoverCoverage.BuildNameToCodeMap | scripts/discoverGoodreturnsCoverage.ts:44-50 | the loop over any table builds the map of its specification fold |
| DiscoverCoverage.NameToCodeMapProps | scripts/discoverGoodreturnsCoverage.ts:44-50 | a name is in the map exactly when it is a table name's normal form, and maps to the code of the last such entry |
| DiscoverCoverage.NameToCodeMapCodes | scripts/discoverGoodreturnsCoverage.ts:44-50 | every code the map yields is a code of the table |
| DiscoverCoverage.LinkOfAnchor | scripts/discoverGoodreturnsCoverage.ts:58-66 | an anchor is kept exactly when it has an href, non-blank text and a state-page href, and gives the absolute URL and the trimmed text |
| DiscoverCoverage.CollectStateLinks | scripts/discoverGoodreturnsCoverage.ts:56-66 | the anchor loop collects the kept anchors in order |
| DiscoverCoverage.DiscoverStatePages | scripts/discoverGoodreturnsCoverage.ts:52-78 | the state pages are the kept anchors de-duplicated by URL, as the specification defines |
| DiscoverCoverage.DiscoveredPagesSound | scripts/discoverGoodreturnsCoverage.ts:68-75 | every page listed comes from a kept anchor |
| DiscoverCoverage.DiscoveredPagesDistinct | scripts/discoverGoodreturnsCoverage.ts:68-75 | no URL is listed twice |
| DiscoverCoverage.DiscoveredPagesComplete | scripts/discoverGoodreturnsCoverage.ts:68-75 | every kept anchor's URL is listed |
| DiscoverCoverage.StatePageHrefOf | scripts/discoverGoodreturnsCoverage.ts:58-62 | a link such as "/petrol-price-in-kerala-s18.html" passes the selector and the pattern |
| DiscoverCoverage.StatePatternLoose | scripts/discoverGoodreturnsCoverage.ts:62 | every state-page link the script accepts, the scraper's own state discovery accepts too |
| DiscoverCoverage.SlugCaptureAt | scripts/discoverGoodreturnsCoverage.ts:97 | a match captures a non-empty slug without '.' or '/' |
| DiscoverCoverage.SlugCapture | scripts/discoverGoodreturnsCoverage.ts:97-99 | the leftmost match captures a non-empty slug without '.' or '/' |
| DiscoverCoverage.SlugCaptureOf | scripts/discoverGoodreturnsCoverage.ts:96-99 | a city link such as "/petrol-price-in-agra.html" yields its slug |
| DiscoverCoverage.CityOfLink | scripts/discoverGoodreturnsCoverage.ts:91-101 | a city link gives an entry exactly when it has an href, text, the price path and a slug, and gives the trimmed text with that slug |
| DiscoverCoverage.CityOfRow | scripts/discoverGoodreturnsCoverage.ts:106-120 | a fallback row gives an entry exactly when its first cell is non-blank and slugifies to something, and gives the name with that slug |
| DiscoverCoverage.Keyed | scripts/discoverGoodreturnsCoverage.ts:127-128 | the de-duplication considers exactly the entries with a non-empty key |
| DiscoverCoverage.CollectCityLinks | scripts/discoverGoodreturnsCoverage.ts:86-102 | the link loop collects the entries the links give, in order |
| DiscoverCoverage.CollectCityRows | scripts/discoverGoodreturnsCoverage.ts:105-121 | the row loop collects the entries the rows give, in order |
| DiscoverCoverage.DedupNonEmptyKeys | scripts/discoverGoodreturnsCoverage.ts:124-131 | the `seen`-set loop keeps the first element of each non-empty key |
| DiscoverCoverage.SeenStep | scripts/discoverGoodreturnsCoverage.ts:127-130 | one element of the `seen`-set loop extends the first-per-key list and the seen keys as one more input element does |
| DiscoverCoverage.DedupCities | scripts/discoverGoodreturnsCoverage.ts:123-133 | the cities are de-duplicated by normalised name, the first of each kept |
| DiscoverCoverage.DiscoverCitiesForState | scripts/discoverGoodreturnsCoverage.ts:80-134 | a state page's cities are those of its specification function |
| DiscoverCoverage.StateCitiesDistinct | scripts/discoverGoodreturnsCoverage.ts:123-133 | no two cities listed share a key |
| DiscoverCoverage.StateCitiesSound | scripts/discoverGoodreturnsCoverage.ts:123-133 | every city listed has a non-empty key and is one of the raw cities |
| DiscoverCoverage.RawCitiesFromLinks | scripts/discoverGoodreturnsCoverage.ts:86-105 | when some link yields a city, the raw cities are exactly those of the links |
| DiscoverCoverage.RawCitiesFromRows | scripts/discoverGoodreturnsCoverage.ts:105-121 | when no link yields a city, the raw cities are those of the fallback rows |
| DiscoverCoverage.StateCitiesComplete | scripts/discoverGoodreturnsCoverage.ts:123-133 | every raw city with a non-empty key is represented by the first raw city with that key |
| DiscoverCoverage.AddStatePage | scripts/discoverGoodreturnsCoverage.ts:145-163 | one state page adds its cities under its code when the name is known and the page was fetched, and changes nothing otherwise |
| DiscoverCoverage.DiscoverCoverage | scripts/discoverGoodreturnsCoverage.ts:136-164 | the table written is the one its specification defines |
| DiscoverCoverage.CitySlugsProps | scripts/discoverGoodreturnsCoverage.ts:145-163 | a code is in the table exactly when some discovered page names a known state with that code and was fetched, and holds the cities of the last such page |
| DiscoverCoverage.CitySlugsCodes | scripts/discoverGoodreturnsCoverage.ts:145-157 | every code of the table is a code of the state table |
| Middleware.Segments | middleware.ts:18 | the pieces are the non-empty parts between slashes, none holding a slash |
| Middleware.SegmentsOfSlash | middleware.ts:18 | a slash and a segment add that segment in front of the rest |
| Middleware.Route | middleware.ts:16-40 | a path is rewritten exactly when it has two segments, the first a section and the second not a state code, and then to the section's legacy path |
| Middleware.RewriteStable | middleware.ts:27-37 | a rewritten path passes through when seen again |
| Middleware.CanonicalPathPasses | middleware.ts:29-30 | a canonical city path with a two-letter state passes through |
| Middleware.CityOnlyPathRewritten | middleware.ts:32-37 | an old city-only path is rewritten to the legacy route |
| SeoSchemas.ToCitySlug | lib/seoSchemas.ts:4-10 | the slug is lower-case, its words joined by single hyphens and never starting or ending with one; it is empty exactly when the name holds no letter or digit |
| SeoSchemas.ToCitySlugIdempotent | lib/seoSchemas.ts:4-10 | slugifying a slug gives the same slug |
| SeoSchemas.ToCitySlugTokens | lib/seoSchemas.ts:4-10 | the slug carries the words of the lower-cased name, in order, and nothing else |
| SeoSchemas.CitySlugRoundTrip | lib/seoSchemas.ts:4-10 | reading a city's slug back with the repository's normalizeCityParam gives the city's normalised comparison key, so the slug in a URL names its city |
| SeoSchemas.ComputeTravelCost | lib/seoSchemas.ts:17-20 | a cost exists exactly when the price is a finite number and the mileage a positive finite number, and then cost × mileage = 100 × price |
| SeoSchemas.TravelCostMonotone | lib/seoSchemas.ts:17-20 | the cost of 100 km grows with the price and falls as the mileage grows |
| SeoSchemas.NumberedItems | lib/seoSchemas.ts:26-31 | one list element per entry, positioned 1, 2, … in order |
| SeoSchemas.ListLdProps | lib/seoSchemas.ts:22-50 | BreadcrumbList and ItemList carry exactly the entries given, in order and unchanged, with strictly increasing positions starting at 1; the item list keeps its name |
| SeoSchemas.CanonicalOfSlug | lib/seoSchemas.ts:157-162 | a city page and the page for its slug share one canonical URL |
| SeoSchemas.CanonicalPathNotRewritten | lib/seoSchemas.ts:157-162 | the canonical path of a city with a two-letter state is passed through by the middleware unchanged |
| SeoSchemas.FormatInr | lib/seoSchemas.ts:12-15 | a label exists exactly when the value is a finite number, and it starts with the rupee sign |
| SeoSchemas.BuildCityFaqLd | lib/seoSchemas.ts:73-144 | the city FAQ has exactly five questions |
| SeoSchemas.PriceAnswerUnavailable | lib/seoSchemas.ts:84-90 | a price answer is the "check back later" text exactly when no price label is shown |
| SeoSchemas.TravelAnswerFormula | lib/seoSchemas.ts:92-96 | the travel answer is the formula explanation exactly when no sample cost is shown |
| SeoSchemas.CityFaqPriceAnswers | lib/seoSchemas.ts:81-90 | the petrol and diesel answers fall back to "check back later" exactly when that price is missing or not finite |
| SeoSchemas.CityFaqOtherAnswers | lib/seoSchemas.ts:79-139 | the travel answer falls back to the formula exactly when no cost can be computed from the petrol price and the sample mileage (18 by default); the refresh and pump answers are fixed |
| SeoSchemas.CityFaqQuestionsNameCity | lib/seoSchemas.ts:104-136 | every one of the five questions names the city |
| UpdateFuelPricesRoute.BearerToken | app/api/update-fuel-prices/route.ts:51 | a token exists exactly when the Authorization header starts with "Bearer ", and the header is "Bearer " followed by it |
| UpdateFuelPricesRoute.Authorize | app/api/update-fuel-prices/route.ts:41-66 | 500 exactly when no secret is configured; the request passes exactly when the provided secret (x-cron-secret header, else the bearer token) equals the configured one; every other refusal is 401 Unauthorized |
| UpdateFuelPricesRoute.HeaderTakesPrecedence | app/api/update-fuel-prices/route.ts:52 | once x-cron-secret is sent, the Authorization header has no effect |
| UpdateFuelPricesRoute.BearerAccepted | app/api/update-fuel-prices/route.ts:49-66 | a correct bearer token alone is accepted, and a wrong x-cron-secret refuses it |
| UpdateFuelPricesRoute.SelectMode | app/api/update-fuel-prices/route.ts:71-79 | the query's mode, else the environment's default, is refused exactly when it is non-empty and neither "all" nor "batch"; "all" and "batch" select their own paths |
| UpdateFuelPricesRoute.QueryModeOverrides | app/api/update-fuel-prices/route.ts:73 | a mode sent in the query, even an empty one, makes the environment's default irrelevant |
| UpdateFuelPricesRoute.CommaRun | app/api/update-fuel-prices/route.ts:82 | the leading run before the first comma holds no comma and stops at one |
| UpdateFuelPricesRoute.SplitCommas | app/api/update-fuel-prices/route.ts:82 | split(",") gives at least one piece and no piece holds a comma |
| UpdateFuelPricesRoute.JoinSplitCommas | app/api/update-fuel-prices/route.ts:82 | joining the pieces with commas gives the text back |
| UpdateFuelPricesRoute.SplitJoinCommas | app/api/update-fuel-prices/route.ts:82 | splitting comma-joined comma-free pieces gives the pieces back |
| UpdateFuelPricesRoute.PiecesHas | app/api/update-fuel-prices/route.ts:80-82 | a piece comes from splitting some stateCode value, and every piece of every value is kept |
| UpdateFuelPricesRoute.CodeOf | app/api/update-fuel-prices/route.ts:83-84 | a piece is kept only as two capital letters |
| UpdateFuelPricesRoute.StateCodesProps | app/api/update-fuel-prices/route.ts:80-85 | the codes are two capital letters, each once, and a code is listed exactly when some piece reads as it once upper-cased and trimmed |
| UpdateFuelPricesRoute.CleanCodesKept | app/api/update-fuel-prices/route.ts:80-85 | clean codes sent one per parameter come back deduplicated, in the order sent |
| UpdateFuelPricesRoute.BatchSize | app/api/update-fuel-prices/route.ts:117-128 | the batch size is the query's when it is 1 to 10, else the environment's when it is 1 to 10, else 2 |
| UpdateFuelPricesRoute.BatchSizeOfQuery | app/api/update-fuel-prices/route.ts:117-128 | a decimal size from 1 to 10 in the query is used; a larger one leaves the choice to the environment |
| UpdateFuelPricesRoute.BatchCount | app/api/update-fuel-prices/route.ts:136 | at least one batch, and for a non-empty list the batches are the fewest that hold every state |
| UpdateFuelPricesRoute.Shard | app/api/update-fuel-prices/route.ts:136-140 | the hour's batch holds at most `size` states and is the run of discovered states starting at (hour mod count) × size |
| UpdateFuelPricesRoute.ShardNonEmpty | app/api/update-fuel-prices/route.ts:136-140 | every hour's batch has a state when any was discovered |
| UpdateFuelPricesRoute.ShardCovers | app/api/update-fuel-prices/route.ts:136-140 | every discovered state is in the batch of some hour of the cycle |
| UpdateFuelPricesRoute.ShardPeriodic | app/api/update-fuel-prices/route.ts:136-140 | the batches repeat every `count` hours |
| UpdateFuelPricesRoute.SelectStates | app/api/update-fuel-prices/route.ts:130-141 | the query's codes when sent; otherwise nothing (every state) exactly when discovery found none, and the hour's batch when it found some |
| UpdateFuelPricesRoute.ErrMessages | app/api/update-fuel-prices/route.ts:148-151 | one message per scraper error, in order, strings as they are and objects as their JSON |
| UpdateFuelPricesRoute.Succeeded | app/api/update-fuel-prices/route.ts:166-177 | no more upserts are counted than snapshots were fetched |
| UpdateFuelPricesRoute.TallyComplete | app/api/update-fuel-prices/route.ts:166-177 | every fetched snapshot is counted exactly once: as an upsert or as an error line |
| UpdateFuelPricesRoute.UpsertSnapshots | app/api/update-fuel-prices/route.ts:166-177 | the loop counts the successful upserts and logs one "Failed upsert for code-city: message" line per failure, in order |
| UpdateFuelPricesRoute.Run | app/api/update-fuel-prices/route.ts:87-182 | the summary is the one RunSpec gives for the path: a throwing roster upsert, discovery, scraper or in-process fetch ends the run as an error with its message and the totals set before it; otherwise every total comes from what the chosen path reports (the `all` scraper given the query's codes or the hour's batch), with the failed-upsert lines of the configured-cities path |
| UpdateFuelPricesRoute.RunSpecFailed | app/api/update-fuel-prices/route.ts:175-191 | a failed run carries the run's date, at least one message and no upserts, so it is answered with 500 |
| UpdateFuelPricesRoute.HttpStatus | app/api/update-fuel-prices/route.ts:191 | 500 exactly when the run failed and wrote nothing, 200 otherwise |
| UpdateFuelPricesRoute.Get | app/api/update-fuel-prices/route.ts:40-193 | the secret check's refusal, else 400 for an invalid mode, else the status HttpStatus picks and the summary RunSpec gives for the selected mode, the parsed stateCode values and the batch size of the query or environment |
| StatesRoute.StateEntryOf | app/api/states/route.ts:18-19 | a row becomes a [code, row] entry exactly when its code is two capital letters |
| StatesRoute.ByNameTotalPreorder | app/api/states/route.ts:21 | the name comparison is a total preorder, so the sort is well defined |
| StatesRoute.LatestRows | app/api/states/route.ts:15-20 | each state kept is the last row given for its code |
| StatesRoute.LatestCodesDistinct | app/api/states/route.ts:15-20 | the Map keeps no code twice |
| StatesRoute.FilteredSorted | app/api/states/route.ts:15-21 | the listed states are sorted by name |
| StatesRoute.FilteredRowsLast | app/api/states/route.ts:15-21 | each listed state has a two-capital-letter code and is the last row given for it |
| StatesRoute.FilteredCodesDistinct | app/api/states/route.ts:15-21 | no code is listed twice |
| StatesRoute.FilteredCodes | app/api/states/route.ts:15-21 | a code is listed exactly when some row carries it and it is two capital letters |
| StatesRoute.ConfigStates | app/api/states/route.ts:31-34 | one state per configured code, in order, named by getStateName |
| StatesRoute.GetStates | app/api/states/route.ts:9-57 | the count is the number of states; the database's states are sent exactly when the query succeeded and some remain after filtering, the configured ones otherwise; the query's error is sent exactly when it failed and debug=1 |
| StatesRoute.DbWinsWithOneCode | app/api/states/route.ts:15-29 | one row with a proper code is enough for the database to answer |
| CitiesRoute.DisplayCity | app/api/cities/route.ts:24-29 | a name is shown as it is, except "Cuddapah" (any case, trimmed) of AP, shown as "Kadapa" |
| CitiesRoute.DisplayAll | app/api/cities/route.ts:35 | every name is displayed in place, in order |
| CitiesRoute.ChosenCities | app/api/cities/route.ts:31-61 | the cities come from one lookup that answered with some, or from the configuration |
| CitiesRoute.ChosenFirstHit | app/api/cities/route.ts:31-51 | the first lookup that answers with any city is used when none before it threw |
| CitiesRoute.ChosenConfig | app/api/cities/route.ts:53-61 | the configuration's cities are used when no lookup answers with any, or one throws before the first that does |
| CitiesRoute.GetCities | app/api/cities/route.ts:11-63 | 400 exactly when stateCode is missing or empty; otherwise the chosen cities of the upper-cased code, displayed and deduplicated |
| CitiesRoute.CitiesListed | app/api/cities/route.ts:31-61 | each city is listed once, and a name is listed exactly when it is the display of a chosen city |
| CitiesRoute.NoCuddapahShown | app/api/cities/route.ts:24-29 | AP never lists a "Cuddapah" spelling, and other states' names pass unchanged |
| FuelPricesRoute.Days | app/api/fuel-prices/route.ts:16 | days is never 0: 7 when absent, empty, not a number or 0, the parsed number otherwise |
| FuelPricesRoute.DaysOfNat | app/api/fuel-prices/route.ts:16 | a decimal count of days is read back, and 0 gives 7 |
| FuelPricesRoute.FuelOf | app/api/fuel-prices/route.ts:18-25 | petrol without a fuel parameter; any other fuel only when the parameter, lower-cased, names it |
| FuelPricesRoute.FuelOfName | app/api/fuel-prices/route.ts:18-25 | every fuel is chosen by its name in any letter case |
| FuelPricesRoute.GetFuelPrices | app/api/fuel-prices/route.ts:11-60 | 400 exactly when stateCode or city is missing or empty; 500 exactly when a lookup throws; 404 exactly when there is neither today's row nor history; otherwise the rows fetched, a chart for each of the four fuels built as buildChartData promises (each date once, the dates with a price, each value the last row's price for its date, dates ascending), and the requested fuel's chart |

## Left out

- Network I/O (`fetchHtml`, its timeout, User-Agent and status handling; the RapidAPI client) is not modelled: page contents and fetch outcomes are parameters (`Option`s or `Outcome`s).
- Database access (Supabase queries, `unstable_cache`, `revalidateTag`) is not modelled: query results are input sequences or `Outcome`s. The store's writes are the `FuelDb.Store` class over maps keyed by (state, city, date). `getStatesList`, `getStateNameByCode`, `getLatestCitySnapshotByKey`, `getLatestFuelPricesDate`, `getCitiesWithData`, `getCitiesByState` and `getCitiesByStateLatestSnapshot` appear only through their results.
- ILIKE matching in the database is a given query result; only the pattern built for it is modelled.
- Cheerio DOM semantics (selectors, `closest`/`prevAll` heading lookup, `.text()`) are not modelled: a page is given as tables of cell texts with caption and heading strings, and links as (href, text) pairs.
- The body-text regex scans are not modelled: the body fallback of `fetchPriceTableMap`, the body patterns of `fetchSingleFuelFromPage` (lib/myFuelSourceBatch.ts:314-353) and the labelled body match of `parseFuelFromHtml` (lib/myFuelSource.ts:85-94, the input `TablePage.bodyMatch`) are given as their outcomes.
- The regular-expression engine is replaced by explicit scanners for each pattern. Unicode `\p{L}` is approximated by ASCII letters plus Latin-1 and Latin Extended-A/B letters. Case mapping is ASCII only.
- Concurrency and pacing (`pLimit`, `Promise.all`, `setTimeout` delays) are not modelled: tasks run sequentially, one after another. Discovery deduplicates states by petrol URL (lib/myFuelSourceBatch.ts:104-112), so two index links with different URLs whose names map to the same code give two tasks for that code. In the source those tasks can interleave their city replacement, day delete and chunk upserts (lib/myFuelSourceBatch.ts:909-912, 1246-1256), and the resulting rows depend on timing. In the model, the later task's writes replace the earlier one's wholesale.
- The clock and the Asia/Kolkata timezone are parameters: the run's date and hour are given. `addDays`' fallback to today's date on malformed input returns that parameter. The `Date.now()` lookback windows are not modelled.
- Floating point is not modelled. Prices are `real`. `parseFloat` is a leading digits-and-dot parse, so exponents, hexadecimal, NaN, Infinity and overflow are not modelled. `toFixed`, `formatInr`, `formatPriceForTitle` and number-to-text rendering are parameters.
- `localeCompare` is approximated by code-point order; it agrees on `YYYY-MM-DD` dates.
- Percent-encoding (`encodeURIComponent`/`decodeURIComponent`) is not modelled: inputs are taken as already decoded and path segments as already URL-safe.
- `JSON.stringify` of a structured scraper error is given as its text.
- Static configuration (`STATE_CITIES`, `CITY_SLUGS`, the state name tables of cityConfig) is given as parameters; only the Goodreturns state-name table is a constant.
- Lookups by own-property name on plain objects are modelled as map lookups, so inherited keys such as "constructor" find nothing. The month lookup is recorded as written in `BatchDates.ParseUpdatedDateAsWritten` (see Findings), and the rest of the model uses the corrected `ParseUpdatedDate`; the members that depend on it are listed one by one below. The other places where the inherited `constructor` changes a result are not modelled:
  - `getStateCodeFromGoodreturnsName` (lib/myFuelSourceBatch.ts:80), where an index anchor named "Constructor" gets the `Object` function as its code. Discovery keeps it, and the all-states path scrapes it. `BatchNames.StateCodeOf` gives no code, and `BatchDiscovery.DiscoverStates` skips the anchor;
  - the state-name test of `getCityFromLinkEl` (lib/myFuelSourceBatch.ts:550), where the source rejects a link whose text is "Constructor", so its `.find` moves on to the next link. `BatchTable.LinkCity` accepts that link;
  - the "already present" tests of `addRow` and of the anchor rows (lib/myFuelSourceBatch.ts:469, 606), where the source drops a city whose name normalises to "constructor" and the model keeps it;
  - the "not yet set" tests of the configured slug tables (lib/myFuelSourceBatch.ts:948-949, 1044), where the source never stores a "constructor" key;
  - the `map[cityKey] != null` test of `getLatestNonNullPriceMap` (lib/fuelStore.ts:374), where the source never records a row keyed "constructor";
  - `stateNameToCode` in scripts/discoverGoodreturnsCoverage.ts:147-157, where the source gives a state page named "Constructor" the `Object` function as its code and writes its cities under that key, and the model skips the page.
- The middleware's `matcher` configuration (which paths reach it at all) is not modelled.
- The `"Unable to load states"` 500 of app/api/states/route.ts:58-63 is not modelled: it can only follow a throw while reading the static configuration, which is a parameter here.
- The cities and fuel-prices routes are modelled for the upper-cased code and the raw parameters: the lookups are given for the code the route passes.
- UI, components, pages, logo rendering and lib/fuelpriceapi.ts are not part of this model.
- ContextScore: scores a table with the corrected `MentionsOtherState` (see Findings), where lib/myFuelSourceBatch.ts:584 and 655 use `ctxMentionsOtherState` as written. On the page of "andaman and nicobar", a table whose context normalises to "andaman and nicobar islands" loses 200 points in the source and nothing in the model.
- FallbackTable: uses the corrected `MentionsOtherState`, so the model reads the Andaman table that the source skips at lib/myFuelSourceBatch.ts:693.
- AnchorCandidate: its score uses the corrected predicate through ContextScore, so it misses the source's −200 on the Andaman page.
- AnchorTableScores: the candidate scores use the corrected predicate through ContextScore.
- ScoreAnchorTables: the loop is proved equal to AnchorTableScores, which scores with the corrected predicate.
- HeaderCandidate: its score uses the corrected predicate through ContextScore, so it misses the source's −200 on the Andaman page.
- HeaderTableScores: the candidate scores use the corrected predicate through ContextScore.
- ScoreHeaderTables: the loop is proved equal to HeaderTableScores, which scores with the corrected predicate.
- AnchorTables: on the Andaman page it can choose a different table from the source's, because the scores use the corrected predicate.
- HeaderTables: on the Andaman page it can choose a different table from the source's, because the scores use the corrected predicate.
- FallbackTables: reads the Andaman table that the source skips, through FallbackTable.
- FetchCityPriceMap: on the Andaman page it can return a map from a different table than the source's, or fill one the source leaves empty, through the three strategies above.
- WriteChunks: store writes never fail in the model. The source throws on a failed chunk upsert (lib/fuelStore.ts:181) and leaves the loop with the earlier chunks written.
- DayReplaced: assumes every write succeeds. In the source, a failed chunk after `deleteFuelPricesForStateDate` leaves the state's day only partly rewritten (lib/myFuelSourceBatch.ts:1249-1256).
- WriteState: assumes every write succeeds. The source's catch after a failed write (lib/myFuelSourceBatch.ts:1258-1260), which pushes `{state, reason}`, is not modelled.
- ProcessState: the results after a failed write are not modelled. In the source, `cities` is already counted, the error is pushed, and `fetched` is not incremented.
- ScrapeStates: the store and totals after a failed write are not modelled.
- SummaryTotals: "fetched, upserts and cities equal the records written" holds only because writes never fail in the model. In the source, after a failed day delete or chunk upsert, `cities` exceeds `fetched`.
- RunTask: the single-row upsert never fails. In the source, `fetched` is incremented before an upsert that throws, and `{task, reason}` is pushed (lib/myFuelSourceBatch.ts:856-868).
- RunTasks: the counts and errors after a failed upsert are not modelled.
- ScrapeAll: every upsert is assumed to succeed, and the record dates come from the corrected date parser (see BlockDate), so the source's junk date on a "constructor" month is not modelled.
- TasksAccounted: the `{task, reason}` error of a failed upsert, with `fetched` already counted, is not modelled.
- BlockDate: parses the block's updated date with the corrected `ParseUpdatedDate`. `AsWrittenAgreesElsewhere` shows the two parsers differ only when the month word is "constructor". For such a text, such as "12th Constructor, 2025", the source keeps "2025-function Object() { [native code] }-12" (lib/myFuelSourceBatch.ts:258-262) and the model gives None, so the model's `YYYY-MM-DD` shape does not hold of the source there.
- FallbackDate: the page's first updated date uses the corrected parser as well (lib/myFuelSourceBatch.ts:288-292). It differs from the source only on a "constructor" month, by `AsWrittenAgreesElsewhere`.
- FetchSingleFuelDate: its page date and the `YYYY-MM-DD` shape rest on the corrected parser through BlockDate and FallbackDate. On a "constructor" month the source returns the junk string instead.
- SnapshotWithSlugProps: a page date from a "constructor" month is absent in the model. In the source it compares above the run date (lib/myFuelSourceBatch.ts:757, 'f' > '1') and becomes the snapshot's date.
- TaskRecordProps: the record's date comes from the corrected parser, so the source's junk date on a "constructor" month is not modelled.
- SampleKeys: the first two sampleable keys are taken in insertion order, while the source filters `Object.keys` order, which lists integer-like keys first (see KeysToFetch).
- KeysToFetch: the 80-key and 25-key prefixes (lib/myFuelSourceBatch.ts:1120-1129) are taken from the keys in insertion order. `Object.keys` lists integer-like keys first, in ascending numeric order. An anchor-row city needs no letter (lib/myFuelSourceBatch.ts:545-556, 596-606), so a link text such as "123" gives such a key, and the source's order of `allCityKeys` (lib/myFuelSourceBatch.ts:926-935) then differs. The prefixes can hold different keys. The same order is the list that `sampleKeysForFuel` filters (lib/myFuelSourceBatch.ts:1049-1058), so with such keys the source can sample two other keys than the model, which changes the LPG and CNG mismatch flags and with them whether the 80-key or the 25-key branch runs.

## Findings

| source | as written | input that shows it | evidently intended | confidence | as-written member | corrected member |
|---|---|---|---|---|---|---|
| lib/myFuelSourceBatch.ts:192-225 | `monthMap[monthRaw.toLowerCase()]` on a plain object finds the inherited `Object` function for the month word "constructor"; it passes the `!month` test and is printed into the month position | "12th Constructor, 2025" gives "2025-function Object() { [native code] }-12" | only the twelve month names and their abbreviations are months; any other word gives null | not executed | BatchDates.ParseRenderedConstructor | BatchDates.ParseUpdatedDate |
| lib/myFuelSourceBatch.ts:531-539 | `ctxMentionsOtherState` skips only the exact key of the page's state and tests `includes` for every other key, including longer names of the same state | context "andaman and nicobar islands" on the page of "andaman and nicobar": the table's own heading counts as another state and its table loses 200 points or is skipped | a name counts as another state only when it maps to a different state code | not executed | BatchTable.AndamanHeadingCounterexample | BatchTable.MentionsOtherState |
