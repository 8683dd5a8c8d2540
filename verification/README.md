# LandGPT Phase 1 in Dafny

LandGPT Phase 1 is a prototype legal assistant for Indian land records. It is
built from three scripts:

- `database_setup.py` creates the SQLite file `landgpt.db` and its tables
  (`land_records`, `legal_faqs`, `user_queries`).
  - It upserts land records keyed by district, tehsil, village and khasra
    number.
  - It builds the query text for record searches.
  - A mock Bhulekh portal scraper bulk-loads capped samples.
  - It loads three sample legal FAQs.
- `phase1_demo.py` runs a scripted demo:
  - a fixed keyword chain answers four logged user queries;
  - an FAQ search;
  - a completion report with recommendation thresholds.
- `run_landgpt.py` is the launcher:
  - a required-file check;
  - a console menu gated on the database file;
  - an interactive keyword responder with its own priority order and a
    quit test.

This project models that logic in Dafny and proves what it promises.

- **Database file.** It is a `LandRecordDb` object whose three tables are
  `seq` fields that the methods reassign.
  - `land_records` is kept in rowid order under the UNIQUE constraint.
  - It is also read as a dictionary keyed by identity. Seen that way, an
    INSERT OR REPLACE is a dictionary update.
- **Loops.** Search-query construction, FAQ loading, the bulk-scrape grid,
  the demo's log-and-answer loop, the FAQ search, the file check, the
  interactive session and the menu are each a method with its loop and
  invariants.
  - Each is proved against a specification function: `Clauses`/`Params`,
    `Plan`/`Replay`, `DemoLog`, `MissingFiles`, `SessionOver` and
    `MenuRun`.
  - The properties are then proved about those functions.
- **Setup in the menu.** The menu is modelled twice, by a `SetupVariant`
  parameter: with `setup_database` as written, where importing the setup
  module creates nothing, and with the setup's main block run.
- **Keyword chains.** Both are first-match-wins over ordered rule lists
  (`Text.FirstMatch`). The demo's chain runs mutation → khasra → agra; the
  launcher's runs agra → mutation → khasra → registry → help.
- **Parameters.** Everything the scripts leave to SQLite, pandas, the file
  system, `random` or `input()` is a parameter:
  - what the SELECTs return;
  - whether each write is accepted (a refused write either returns False,
    where the script catches it, or raises and ends the loop it is in);
  - which files exist;
  - the random draws;
  - the input lines.

Modules: `Text` (text.dfy), `LandRecords` (land_records.dfy), `Scraper`
(scraper.dfy), `FaqLoader` (faq_loader.dfy), `SetupScript`
(setup_script.dfy), `Phase1Demo` (demo.dfy) and `Launcher` (launcher.dfy).

## Model

| member | source | states |
|---|---|---|
| Text.Lower | run_landgpt.py:77 | `str.lower()` keeps the length, leaves no upper-case ASCII letter and keeps every character that is not one |
| Text.LowerShiftsCapitals | run_landgpt.py:77 | `str.lower()` turns each of `A`-`Z` into its small letter, 32 code points above it |
| Text.StripLeftSpec | run_landgpt.py:75 | stripping the left end drops exactly the leading whitespace: the result is a suffix, everything dropped is whitespace, and the result does not start with whitespace |
| Text.StripRightSpec | run_landgpt.py:75 | stripping the right end drops exactly the trailing whitespace, symmetrically |
| Text.StripBothEnds | run_landgpt.py:136 | `str.strip()` is right-stripping after left-stripping, so both ends lose exactly their whitespace |
| Text.ContainsAt | run_landgpt.py:81 | `keyword in text` holds exactly when the keyword occurs at some position of the text |
| Text.ContainsAnyAt | phase1_demo.py:204 | `any(keyword in text for keyword in keywords)` holds exactly when one of the keywords occurs in the text |
| Text.Take | phase1_demo.py:127 | `s[:n]` is a prefix of `s` of length `min(n, len(s))` |
| Text.NatToString | database_setup.py:207 | `str(khasra_num)` is a non-empty string of decimal digits with no leading zero, a single digit below 10 |
| Text.NatToStringValue | database_setup.py:207 | `str(n)` reads back as `n`: the digits' decimal value is the number written |
| Text.FirstMatchSpec | run_landgpt.py:81-117 | an if/elif keyword chain answers with the rule that wins under first-match-wins, and falls through to the else branch exactly when no rule's keyword occurs |
| Text.FirstMatchUnique | run_landgpt.py:81-117 | at most one rule is the first match, so exactly one branch fires |
| Text.FirstRefusal | database_setup.py:269-284 | a loop whose write raises stops at the first refused write: every write before it was accepted, and the one it stops at was refused unless the loop ran to the end |
| LandRecords.RowOf | database_setup.py:81-96 | a record yields a row exactly when its four identity fields are present, because they are NOT NULL with no default |
| LandRecords.RowOfColumns | database_setup.py:83-95 | every column of the stored row is `record.get(column)`: a re-insert overwrites every field and an absent field becomes NULL |
| LandRecords.Upsert | database_setup.py:44 | after INSERT OR REPLACE the new row is last, its identity occurs exactly once, and every other identity occurs as often as before |
| LandRecords.UpsertIsMapUpdate | database_setup.py:83-95 | read as a dictionary keyed by identity, an upsert is the update `table[key] := row` |
| LandRecords.UpsertKeepsUnique | database_setup.py:44 | an upsert keeps the UNIQUE constraint; the table grows by one row for a new identity and keeps its size for an existing one |
| LandRecords.AsMapHasKey | database_setup.py:44 | an identity is in the dictionary view exactly when some row has it |
| LandRecords.UniqueRowsMatchMap | database_setup.py:44 | under the UNIQUE constraint there are as many rows as identities |
| LandRecords.SearchWithoutCriteria | database_setup.py:110-116 | the query is the bare `SELECT * FROM land_records WHERE 1=1` with no parameters exactly when no criterion is truthy |
| LandRecords.LikeClausePlaceholder | database_setup.py:115 | each ` AND key LIKE ?` clause holds exactly one placeholder when the column name holds none |
| LandRecords.ClausesPlaceholders | database_setup.py:113-116 | the appended clauses hold one placeholder per parameter appended |
| LandRecords.SearchPlaceholdersMatchParams | database_setup.py:110-118 | the query handed to SQLite has exactly as many `?` placeholders as parameters |
| LandRecords.LandRecordDb.constructor | database_setup.py:16-73 | CREATE TABLE IF NOT EXISTS keeps the rows a database file already holds |
| LandRecords.LandRecordDb.InsertLandRecord | database_setup.py:76-103 | returns True exactly when the identity fields are present and the write commits; then the table is the upsert, otherwise it is unchanged; the other tables never change |
| LandRecords.LandRecordDb.SearchLandRecords | database_setup.py:105-118 | the loop builds the query `SelectAll + Clauses` and the parameters `Params`: one ` AND key LIKE ?` clause and one `%value%` parameter per truthy criterion, in argument order |
| Scraper.Tehsils | database_setup.py:145-153 | the three mapped districts have four tehsils each; every other district gets `["Sample Tehsil"]` |
| Scraper.Villages | database_setup.py:155-158 | every tehsil has the same three sample villages, the first two of them distinct |
| Scraper.ScrapeKhatauni | database_setup.py:160-189 | the record has all fourteen columns, so it always yields a row; the row stored is the scraped row for these arguments and draws |
| Scraper.ScrapedRowFacts | database_setup.py:172-187 | the scraped row's identity is (district, tehsil, village, search value); the khata number is "KH" and a three-digit serial; the areas lie in the generator's ranges |
| Scraper.KhasraLimit | database_setup.py:204 | `range(1, min(max//4 + 1, 6))` tries at most 5 khasra numbers, none when the cap is below 4, at most `max/4` of them, exactly `max//4` below 24 and exactly 5 from 24 on |
| Scraper.VillageAttempts | database_setup.py:204-207 | a village's attempts are khasra numbers 1 to k in order |
| Scraper.PlanScope | database_setup.py:196-204 | every attempt is for a given district, one of its first two tehsils, one of that tehsil's first two villages, and a khasra number 1..k |
| Scraper.TehsilAttemptsLength | database_setup.py:203-204 | a tehsil contributes `villages * k` attempts |
| Scraper.DistrictAttemptsLength | database_setup.py:200-204 | a district contributes `2 * k` attempts per tehsil |
| Scraper.PlanLength | database_setup.py:196-204 | bulk_scrape makes at most `4 * k` attempts per district |
| Scraper.SuccessesAtMost | database_setup.py:208-209 | the success counter never exceeds the number of attempts |
| Scraper.ReplayGrowth | database_setup.py:205-212 | replaying the attempts keeps the UNIQUE constraint, and the table grows by at most one row per accepted insert |
| Scraper.BulkScrapeBound | database_setup.py:191-214 | total_scraped is at most the number of attempts and at most `districts * max_records_per_district`; there are no attempts when the cap is below 4 |
| Scraper.ReplaySnoc | database_setup.py:208 | one more attempt extends the table by its upsert when storage accepts it, and by nothing otherwise |
| Scraper.ScrapeAttempt | database_setup.py:205-210 | one scrape-and-insert succeeds exactly when storage does, and upserts the scraped row |
| Scraper.ScrapeVillage | database_setup.py:204-212 | the khasra loop performs the village's attempts in order; the counter counts the accepted ones; a failed insert does not stop the loop |
| Scraper.ScrapeTehsil | database_setup.py:203-212 | the village loop covers the first two villages of the tehsil |
| Scraper.ScrapeDistrict | database_setup.py:200-212 | the tehsil loop covers the first two tehsils of the district |
| Scraper.BulkScrape | database_setup.py:191-214 | the table afterwards is the replay of the whole attempt plan; total_scraped is the number of accepted inserts; the FAQ and query tables are unchanged |
| FaqLoader.SampleFaqsDistinct | database_setup.py:226-267 | there are three sample FAQs with pairwise different questions |
| FaqLoader.ReloadDuplicates | database_setup.py:269-281 | with no uniqueness check, loading the samples twice stores each one twice more |
| FaqLoader.LegalFaqLoader.constructor | database_setup.py:220-221 | the loader writes to the default database file |
| FaqLoader.LegalFaqLoader.InsertFaq | database_setup.py:272-284 | an accepted INSERT appends the FAQ; a refused one raises and leaves the table as it was; nothing else changes |
| FaqLoader.LegalFaqLoader.LoadSampleFaqs | database_setup.py:223-270 | the three sample FAQs are appended in order up to the first refused write, which ends the load; it completes exactly when every write is accepted |
| SetupScript.SetupMain | database_setup.py:287-314 | on any database file: the FAQs gain the samples stored before the first refused FAQ write; when such a write raises, the block stops with the land records unchanged and no search; otherwise the land records are the replay of the bulk scrape of the first three districts with cap 8 and the closing search is the Agra search; the query log is unchanged |
| SetupScript.AgraSearchQuery | database_setup.py:314 | `search_land_records(district="Agra")` sends `... WHERE 1=1 AND district LIKE ?` with the one parameter `%Agra%` |
| Phase1Demo.DemoClassifyIsFirstMatch | phase1_demo.py:204-238 | exactly one branch answers: the first of mutation/म्यूटेशन, khasra, agra whose keyword occurs in the lower-cased query, or the generic answer when none does |
| Phase1Demo.DemoReplyFor | phase1_demo.py:203-238 | the mutation and khasra branches show `answer[:200]` of their own lookup, or their own fixed message (`MutationFallback`, `KhasraFallback`) when it found nothing; the Agra branch shows the count and the total area, a NULL sum read as 0, for a positive count and `AgraFallback` otherwise; any other query gets `GenericReply` |
| Phase1Demo.DemoLog | phase1_demo.py:192-201 | one log row per query, in order, with query_type "demo" and no response |
| Phase1Demo.DemoLogCounts | phase1_demo.py:192-201 | each query is logged exactly as often as it occurs in the list |
| Phase1Demo.CountQueries | phase1_demo.py:243 | the COUNT query succeeds exactly on an open connection and then returns the log length |
| Phase1Demo.QueryStatsAsWrittenFails | phase1_demo.py:240-245 | as written, the statistics step runs on the closed connection and fails whatever the log holds |
| Phase1Demo.DemoMockUserInteraction | phase1_demo.py:178-245 | the queries before the first refused log INSERT are logged, in order, and each gets the chain's reply; a refused INSERT raises, so no later query is logged or answered and no total is read; otherwise the total is the old log size plus the number of queries; the other tables are unchanged |
| Phase1Demo.FaqSearchSelectPlaceholders | phase1_demo.py:115-118 | the SELECT/FROM/WHERE prefix of the FAQ query holds no placeholder |
| Phase1Demo.FaqSearchWherePlaceholders | phase1_demo.py:118 | the condition holds three placeholders |
| Phase1Demo.FaqSearchLimitPlaceholders | phase1_demo.py:119-120 | the LIMIT suffix holds no placeholder |
| Phase1Demo.FaqSearchBindsEveryPlaceholder | phase1_demo.py:115-122 | the FAQ query has exactly three placeholders and three parameters, each `%term%` |
| Phase1Demo.DemoFaqSearch | phase1_demo.py:103-132 | each search term sends the FAQ query with three `%term%` parameters and shows `min(2, matches)` rows, in order, with question and category intact and the answer cut to `answer[:100]` |
| Phase1Demo.Phase1Stats | phase1_demo.py:256-273 | the report's row counts are the sizes of the three tables |
| Phase1Demo.StatsAtMostRows | phase1_demo.py:266-273 | the distinct district, tehsil and village counts never exceed the number of land records |
| Phase1Demo.DistinctAtMost | phase1_demo.py:266-273 | `COUNT(DISTINCT column)` is at most the number of rows |
| Phase1Demo.Recommendations | phase1_demo.py:301-308 | more sample data is recommended exactly when there are under 100 land records, and more FAQs exactly when there are under 20 FAQs; the three fixed recommendations always close the list |
| Phase1Demo.FreshSetupRecommendsMore | phase1_demo.py:302-305 | after the setup script on a new file (at most 24 accepted inserts, 3 FAQs) the report recommends both more data and more FAQs, whatever the draws and storage outcomes |
| Launcher.MissingFilesSpec | run_landgpt.py:27-29 | the missing-file filter distributes over concatenation, so the report keeps the order of the requirement list |
| Launcher.MissingFilesMembers | run_landgpt.py:22-39 | a file is reported missing exactly when it is required and does not exist; the report is empty exactly when every required file exists |
| Launcher.CheckFiles | run_landgpt.py:22-39 | the loop collects the missing files in order and returns True exactly when every required file exists |
| Launcher.ClassifyIsFirstMatch | run_landgpt.py:81-117 | exactly one branch answers: the first of agra, mutation, khasra, registry, help whose keyword (English or Hindi) occurs in the lower-cased input, or the fallback when none does |
| Launcher.OppositePrecedence | run_landgpt.py:81-93 | a text mentioning both agra and mutation gets the Agra answer here and the mutation answer in the demo (phase1_demo.py:204-225) |
| Launcher.RespondShape | run_landgpt.py:80-117 | each branch has its own replies; the Agra summary appears only for a positive count, with a NULL average read as 0, otherwise "no records"; the mutation branch prints the stored answer whole or its fixed text |
| Launcher.QuitIndexSpec | run_landgpt.py:74-78 | the session stops at the first stripped line whose lower-case form is quit, exit or q |
| Launcher.RepliesAt | run_landgpt.py:74-117 | the replies to the first k lines are, in order, the responder's answers to the stripped lines |
| Launcher.AnswerUntilQuit | run_landgpt.py:74-117 | the read loop answers exactly the lines before the first quit word, in order |
| Launcher.InteractiveQuery | run_landgpt.py:64-120 | a session is SessionOver: the replies, how many lines it read, and whether it quit |
| Launcher.SessionShape | run_landgpt.py:74-120 | a quit line is read but not classified; the session quits exactly when some line is a quit word, and otherwise reads all input; every answered line precedes the quit line |
| Launcher.SetupDatabase | run_landgpt.py:41-50 | corrected setup: it reports the import's outcome, and the database exists afterwards when the import succeeded |
| Launcher.SetupDatabaseAsWritten | run_landgpt.py:41-50 | the setup as written reports the import's outcome and leaves the database as it was |
| Launcher.ParseChoiceSpec | run_landgpt.py:136-172 | only the stripped texts "1" to "6" select an option, and "6" alone selects Exit |
| Launcher.MenuStep | run_landgpt.py:136-172 | one round, under either setup, reads at least its choice line and stays within the input; it is Exit exactly for choice 6 |
| Launcher.ExitOnlyAtEnd | run_landgpt.py:127-169 | choice 6 is the only exit: a run exits exactly when its last event is Exit, and no earlier event is Exit |
| Launcher.InvalidChoiceContinues | run_landgpt.py:171-172 | a choice outside 1-6 is reported invalid, and the menu carries on with the next line with the database untouched |
| Launcher.GatedChoices | run_landgpt.py:138-165 | options 3-5 act exactly when the database exists, report "not found" otherwise, and never create it; setup succeeds exactly when both files exist and the import succeeds; as written, option 2 never creates the database and option 1 creates it only through the demo object (when phase1_demo imports); with the main block run, a successful setup creates it |
| Launcher.RunSetup | run_landgpt.py:141-147 | `check_files() and setup_database()` under the chosen setup: the setup half of options 1 and 2 |
| Launcher.MenuRound | run_landgpt.py:138-172 | one dispatch round computes MenuStep, including the database file that option 1's demo object creates |
| Launcher.MainMenu | run_landgpt.py:122-172 | the menu loop's events, exit flag and database state are MenuRun's, for the setup as written and for the corrected one |
| Launcher.SetupThenDemo | run_landgpt.py:145-153 | as written, "Setup Database Only" on a fresh install reports success and leaves no database, so the menu input 2, 3 gives setup success followed by "not found"; with the main block run the demo runs |
| Launcher.QuickSetupCreatesThroughDemo | run_landgpt.py:52-62 | as written, the quick setup on a fresh install creates the database only through `run_demo`'s demo object, whose constructor opens the file (phase1_demo.py:13-24): input 1, 3 runs the demo exactly when phase1_demo imports |

## Left out

- SQLite and pandas execution is not modelled: LIKE matching, COUNT/SUM/AVG/GROUP BY, LIMIT on real data, and connections. What each SELECT returns is a parameter (`DemoLookups`, `Lookups`, the `matches` function of `DemoFaqSearch`). Whether each write is accepted is a parameter for the land-record upserts, the FAQ inserts and the demo's log inserts; other failures (the CREATE TABLEs, opening a connection, the SELECTs) are not modelled.
- The randomness, floats and `time.sleep` of `scrape_khatauni` are not modelled: the draws are a `MockDraw` parameter, and `ValidDraw` states the generator's ranges. Rounding to two decimals is not modelled.
- The `requests` session, the User-Agent header and the BeautifulSoup import have no effect on the data and are omitted.
- `install_requirements` (pip through a subprocess) is not modelled. Option 1 records its setup outcome and whether the demo object then creates the database file; the demo's own output is not recorded.
- The `exec` of database_setup.py in phase1_demo.py's main block (lines 348-354) is not modelled. That block builds the demo object before it checks whether landgpt.db exists. The object's constructor creates the file unless its import of database_setup raises ImportError (phase1_demo.py:22-31), which it catches. Only then is the `exec` branch taken. With database_setup.py present, it runs that script's source. With it absent, the argument is the `None` that `print` returns, and `exec(None)` raises TypeError.
- Console output is not modelled: replies are tags or canned strings, not the printed Hindi text, emoji or "..." suffix.
- `input()` is a sequence of lines. EOF ends the run instead of raising.
- Timestamps, auto-increment ids and the `created_at` defaults are omitted.
- `demo_database_operations`, `demo_sample_queries`, `demo_data_analysis` and `show_database_stats` are only SELECT-and-print steps. The menu records that options 3 and 5 ran, without their output.
- `run_demo`'s exception handling and a pandas import failure in options 4-5 are not modelled. Of phase1_demo's import, only its effect on the database file is modelled (`demoImportsOk`).
- Text.Lower: only ASCII letters are lower-cased. Python's `str.lower()` also folds other cased scripts; the keywords here are ASCII or Devanagari, which has no case.
- LandRecords.RowOf: a record is a map over the fourteen columns. Extra dictionary keys are not represented, because insert_land_record never reads them. SQLite's TEXT affinity is not modelled either: an identity value is a `Value` (`Str` or `Num`), and `Num(1.0)` and `Str("1")` are different keys here. SQLite stores the number 1 in a TEXT column as the text '1', so the two would be one row there. The scripts always pass strings for the identity columns (`str(khasra_num)` at database_setup.py:207).
- LandRecords.LandRecordDb.SearchLandRecords: the rows returned are not modelled, only the query and parameters sent.
- Scraper.Tehsils: the contract states the list lengths and the placeholder. The names of the mapped tehsils are given by the definition only.
- Phase1Demo.Phase1Stats: the distinct counts are bounded by StatsAtMostRows, not computed against SQLite.
- Phase1Demo.DemoClassifyIsFirstMatch: the four scripted queries are not classified one by one.
- Menu sessions: what the responder's SELECTs return is indexed by the input position where the session starts, not by the database contents.
- Launcher.MenuRun, Launcher.Respond, Text.Strip and Text.Contains carry no `ensures` of their own, because an `ensures` on them is instantiated wherever the menu and the session loop unfold them. Their properties are stated by lemmas:
  - MenuRun: ExitOnlyAtEnd, InvalidChoiceContinues, GatedChoices and SetupThenDemo;
  - Respond: RespondShape;
  - Strip: StripBothEnds with StripLeftSpec and StripRightSpec;
  - Contains: ContainsAt.

## Findings

| source | as written | input that shows it | evidently intended | confidence | as-written member | corrected member |
|---|---|---|---|---|---|---|
| phase1_demo.py:240-245 | the connection is closed and then passed to `read_sql_query`, which raises, so `run_complete_demo` never reaches the report | any run of `demo_mock_user_interaction`, e.g. the four scripted queries | read the query total before closing the connection | high, not executed | Phase1Demo.QueryStatsAsWrittenFails | Phase1Demo.DemoMockUserInteraction |
| run_landgpt.py:41-50 | `import database_setup` runs no setup, because the setup is guarded by `if __name__ == "__main__"` (database_setup.py:288); success is reported and no database file is created | a fresh directory holding both scripts, menu input "2" then "3" | run the setup's main block so that landgpt.db exists | high, not executed | Launcher.SetupThenDemo | Launcher.SetupDatabase |
