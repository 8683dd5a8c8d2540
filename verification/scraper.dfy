/** `BhulekhScraper`: the mock land-records portal. The district, tehsil and
    village lookups are fixed tables, `scrape_khatauni` fills a record whose
    random fields come in as a `MockDraw`, and `bulk_scrape` walks a capped
    district/tehsil/village/khasra grid, upserting every record and counting
    the inserts that succeed. */
module Scraper {
  import opened Text
  import opened LandRecords

  // ----- fixed lookups --------------------------------------------------------

  /** `get_districts`: fifteen Uttar Pradesh districts. */
  const Districts: seq<string> := [
    "Agra", "Aligarh", "Allahabad", "Ambedkar Nagar", "Amethi",
    "Amroha", "Auraiya", "Azamgarh", "Baghpat", "Bahraich",
    "Ballia", "Balrampur", "Banda", "Barabanki", "Bareilly"]

  /** `get_tehsils`: four tehsils for each of the three mapped districts,
      the single placeholder "Sample Tehsil" for every other district. */
  function Tehsils(district: string): (r: seq<string>)
    ensures district in ["Agra", "Aligarh", "Allahabad"] ==> |r| == 4
    ensures district !in ["Agra", "Aligarh", "Allahabad"] ==> r == ["Sample Tehsil"]
  {
    if district == "Agra" then ["Agra", "Fatehabad", "Kheragarh", "Pinahat"]
    else if district == "Aligarh" then ["Atrauli", "Gabhana", "Iglas", "Koil"]
    else if district == "Allahabad" then ["Bara", "Handia", "Karchhana", "Koraon"]
    else ["Sample Tehsil"]
  }

  /** `get_villages`: the same three sample villages for every tehsil. */
  function Villages(district: string, tehsil: string): (r: seq<string>)
    ensures |r| == 3 && r[0] != r[1]
  {
    ["Sample Village 1", "Sample Village 2", "Sample Village 3"]
  }

  // ----- scrape_khatauni ------------------------------------------------------

  const LandTypes: seq<string> := ["कृषि योग्य", "आवासीय", "बंजर"]
  const IrrigationStatuses: seq<string> := ["सिंचित", "असिंचित"]
  const Crops: seq<string> := ["गेहूं", "धान", "मक्का", "गन्ना"]

  /** What the random calls of one scrape returned: the khata serial from
      `randint(100, 999)`, the two areas from `uniform` after rounding to two
      decimals, and the three `choice`s. */
  datatype MockDraw = MockDraw(
    khataSerial: nat, areaHectare: real, areaBigha: real,
    landType: string, irrigationStatus: string, cropDetails: string)

  /** The draws the random calls can return. */
  predicate ValidDraw(d: MockDraw)
  {
    && 100 <= d.khataSerial <= 999
    && 0.5 <= d.areaHectare <= 5.0
    && 1.0 <= d.areaBigha <= 12.0
    && d.landType in LandTypes
    && d.irrigationStatus in IrrigationStatuses
    && d.cropDetails in Crops
  }

  /** Both areas of a row are present, numeric and inside the generator's
      ranges. */
  predicate AreasInRange(row: Row)
  {
    && row.areaHectare.Some? && row.areaHectare.value.Num?
    && 0.5 <= row.areaHectare.value.x <= 5.0
    && row.areaBigha.Some? && row.areaBigha.value.Num?
    && 1.0 <= row.areaBigha.value.x <= 12.0
  }

  /** The row INSERT OR REPLACE stores for a scraped record: the identity
      echoes the arguments, the khata number is "KH" and the serial, owner
      and father are fixed placeholders, the areas and the three choices come
      from the draws, and the two dates are fixed. */
  function ScrapedRow(district: string, tehsil: string, village: string,
                      searchValue: string, draw: MockDraw): Row
  {
    Row(Key(Str(district), Str(tehsil), Str(village), Str(searchValue)),
        Some(Str("KH" + NatToString(draw.khataSerial))), Some(Str("Sample Owner Name")),
        Some(Str("Sample Father Name")), Some(Num(draw.areaHectare)), Some(Num(draw.areaBigha)),
        Some(Str(draw.landType)), Some(Str(draw.irrigationStatus)), Some(Str(draw.cropDetails)),
        Some(Str("2023-01-15")), Some(Str("2022-12-10")))
  }

  /** `scrape_khatauni`: a record dict with all fourteen columns, the khasra
      number taken from `searchValue` (`searchType` is unused). Every identity
      field is present, so inserting it never violates NOT NULL, and the row
      stored is ScrapedRow. */
  function ScrapeKhatauni(district: string, tehsil: string, village: string,
                          searchType: string, searchValue: string, draw: MockDraw): (r: Record)
    ensures RowOf(r) == Some(ScrapedRow(district, tehsil, village, searchValue, draw))
  {
    var khata := "KH" + NatToString(draw.khataSerial);
    var r := map[
      District := Some(Str(district)),
      Tehsil := Some(Str(tehsil)),
      Village := Some(Str(village)),
      KhasraNumber := Some(Str(searchValue)),
      KhataNumber := Some(Str(khata)),
      OwnerName := Some(Str("Sample Owner Name")),
      FatherName := Some(Str("Sample Father Name")),
      AreaHectare := Some(Num(draw.areaHectare)),
      AreaBigha := Some(Num(draw.areaBigha)),
      LandType := Some(Str(draw.landType)),
      IrrigationStatus := Some(Str(draw.irrigationStatus)),
      CropDetails := Some(Str(draw.cropDetails)),
      MutationDate := Some(Str("2023-01-15")),
      RegistryDate := Some(Str("2022-12-10"))];
    assert Get(r, District) == Some(Str(district)) && Get(r, Tehsil) == Some(Str(tehsil));
    assert Get(r, Village) == Some(Str(village)) && Get(r, KhasraNumber) == Some(Str(searchValue));
    assert Get(r, KhataNumber) == Some(Str(khata)) && Get(r, AreaHectare) == Some(Num(draw.areaHectare));
    assert Get(r, AreaBigha) == Some(Num(draw.areaBigha)) && Get(r, LandType) == Some(Str(draw.landType));
    assert Get(r, OwnerName) == Some(Str("Sample Owner Name")) && Get(r, FatherName) == Some(Str("Sample Father Name"));
    assert Get(r, IrrigationStatus) == Some(Str(draw.irrigationStatus)) && Get(r, CropDetails) == Some(Str(draw.cropDetails));
    assert Get(r, MutationDate) == Some(Str("2023-01-15")) && Get(r, RegistryDate) == Some(Str("2022-12-10"));
    r
  }

  /** A scraped row is keyed by the four arguments it was scraped for, its
      khata number is "KH" followed by the three digits of the serial, and its
      areas lie in the generator's ranges whenever the draws do. */
  lemma ScrapedRowFacts(district: string, tehsil: string, village: string,
                        searchValue: string, draw: MockDraw)
    requires ValidDraw(draw)
    ensures var row := ScrapedRow(district, tehsil, village, searchValue, draw);
      && row.key == Key(Str(district), Str(tehsil), Str(village), Str(searchValue))
      && row.khataNumber.Some? && row.khataNumber.value.Str?
      && |row.khataNumber.value.s| == 5 && row.khataNumber.value.s[..2] == "KH"
      && AreasInRange(row)
  {
    var n := draw.khataSerial;
    assert NatToString(n) == NatToString(n / 10) + [DigitChar(n % 10)];
    assert NatToString(n / 10) == NatToString(n / 100) + [DigitChar(n / 10 % 10)];
  }

  // ----- bulk_scrape ----------------------------------------------------------

  /** The number of khasra numbers bulk_scrape tries per village:
      `range(1, min(max_records_per_district // 4 + 1, 6))` holds
      `max // 4` numbers, capped at five and never negative. Python's `//`
      floors, as Dafny's `/` does for a positive divisor. */
  function KhasraLimit(maxPerDistrict: int): (k: nat)
    ensures k <= 5
    ensures k == 0 <==> maxPerDistrict < 4
    ensures maxPerDistrict >= 0 ==> 4 * k <= maxPerDistrict
    ensures 0 <= maxPerDistrict < 24 ==> k == maxPerDistrict / 4
    ensures maxPerDistrict >= 24 ==> k == 5
  {
    var stop := Min(maxPerDistrict / 4 + 1, 6);
    if stop <= 1 then 0 else stop - 1
  }

  /** One scrape-and-insert the loop performs. */
  datatype Attempt = Attempt(district: string, tehsil: string, village: string, khasra: nat)

  /** The attempts for one village: khasra numbers 1 to n. */
  function VillageAttempts(district: string, tehsil: string, village: string, n: nat): (r: seq<Attempt>)
    ensures |r| == n
    ensures forall i :: 0 <= i < n ==> r[i] == Attempt(district, tehsil, village, i + 1)
  {
    seq(n, i requires 0 <= i < n => Attempt(district, tehsil, village, i + 1))
  }

  /** The attempts for one tehsil, village by village. */
  function TehsilAttempts(district: string, tehsil: string, villages: seq<string>, k: nat): seq<Attempt>
  {
    if villages == [] then []
    else
      TehsilAttempts(district, tehsil, villages[..|villages| - 1], k)
      + VillageAttempts(district, tehsil, villages[|villages| - 1], k)
  }

  /** The attempts for one district, tehsil by tehsil, each over the first
      two villages of the tehsil. */
  function DistrictAttempts(district: string, tehsils: seq<string>, k: nat): seq<Attempt>
  {
    if tehsils == [] then []
    else
      var t := tehsils[|tehsils| - 1];
      DistrictAttempts(district, tehsils[..|tehsils| - 1], k)
      + TehsilAttempts(district, t, Take(Villages(district, t), 2), k)
  }

  /** Every attempt bulk_scrape makes, in loop order: per district the first
      two of its tehsils, per tehsil the first two villages, per village the
      khasra numbers 1 to k. */
  function Plan(districts: seq<string>, k: nat): seq<Attempt>
  {
    if districts == [] then []
    else
      var d := districts[|districts| - 1];
      Plan(districts[..|districts| - 1], k) + DistrictAttempts(d, Take(Tehsils(d), 2), k)
  }

  lemma {:induction false} TehsilScope(district: string, tehsil: string, villages: seq<string>, k: nat)
    ensures forall a :: a in TehsilAttempts(district, tehsil, villages, k) ==>
      a.district == district && a.tehsil == tehsil && a.village in villages && 1 <= a.khasra <= k
  {
    if villages != [] {
      var init := villages[..|villages| - 1];
      TehsilScope(district, tehsil, init, k);
      forall a | a in TehsilAttempts(district, tehsil, init, k) ensures a.village in villages {
        var j :| 0 <= j < |init| && init[j] == a.village;
        assert villages[j] == a.village;
      }
    }
  }

  lemma {:induction false} DistrictScope(district: string, tehsils: seq<string>, k: nat)
    ensures forall a :: a in DistrictAttempts(district, tehsils, k) ==>
      a.district == district && a.tehsil in tehsils
      && a.village in Take(Villages(district, a.tehsil), 2) && 1 <= a.khasra <= k
  {
    if tehsils != [] {
      var init, t := tehsils[..|tehsils| - 1], tehsils[|tehsils| - 1];
      DistrictScope(district, init, k);
      TehsilScope(district, t, Take(Villages(district, t), 2), k);
      forall a | a in DistrictAttempts(district, init, k) ensures a.tehsil in tehsils {
        var j :| 0 <= j < |init| && init[j] == a.tehsil;
        assert tehsils[j] == a.tehsil;
      }
    }
  }

  /** bulk_scrape stays inside its caps: every attempt is for one of the
      given districts, one of the first two tehsils of that district, one of
      the first two villages of that tehsil, and a khasra number from 1 to k. */
  lemma {:induction false} PlanScope(districts: seq<string>, k: nat)
    ensures forall a :: a in Plan(districts, k) ==>
      a.district in districts && a.tehsil in Take(Tehsils(a.district), 2)
      && a.village in Take(Villages(a.district, a.tehsil), 2) && 1 <= a.khasra <= k
  {
    if districts != [] {
      var init, d := districts[..|districts| - 1], districts[|districts| - 1];
      PlanScope(init, k);
      DistrictScope(d, Take(Tehsils(d), 2), k);
      forall a | a in Plan(init, k) ensures a.district in districts {
        var j :| 0 <= j < |init| && init[j] == a.district;
        assert districts[j] == a.district;
      }
    }
  }

  /** Each district contributes at most 2 * 2 * k attempts. */
  lemma {:induction false} TehsilAttemptsLength(district: string, tehsil: string, villages: seq<string>, k: nat)
    ensures |TehsilAttempts(district, tehsil, villages, k)| == |villages| * k
  {
    if villages != [] {
      var init := villages[..|villages| - 1];
      TehsilAttemptsLength(district, tehsil, init, k);
      assert TehsilAttempts(district, tehsil, villages, k)
          == TehsilAttempts(district, tehsil, init, k) + VillageAttempts(district, tehsil, villages[|villages| - 1], k);
      MulSucc(k, |init|);
      assert |villages| * k == |init| * k + k;
    }
  }

  lemma {:induction false} DistrictAttemptsLength(district: string, tehsils: seq<string>, k: nat)
    ensures |DistrictAttempts(district, tehsils, k)| == 2 * k * |tehsils|
  {
    if tehsils != [] {
      var t := tehsils[|tehsils| - 1];
      DistrictAttemptsLength(district, tehsils[..|tehsils| - 1], k);
      TehsilAttemptsLength(district, t, Take(Villages(district, t), 2), k);
      MulSucc(2 * k, |tehsils| - 1);
    }
  }

  lemma {:induction false} PlanLength(districts: seq<string>, k: nat)
    ensures |Plan(districts, k)| <= 4 * k * |districts|
  {
    if districts != [] {
      var init := districts[..|districts| - 1];
      PlanLength(init, k);
      var d := districts[|districts| - 1];
      var ts := Take(Tehsils(d), 2);
      DistrictAttemptsLength(d, ts, k);
      LengthStep(|Plan(init, k)|, |DistrictAttempts(d, ts, k)|, |ts|, k, |init|);
    }
  }

  /** The arithmetic of one PlanLength step: a district of at most two
      tehsils adds at most 4 * k attempts. */
  lemma LengthStep(p: int, q: int, t: nat, k: nat, m: nat)
    requires p <= 4 * k * m && q == 2 * k * t && t <= 2
    ensures p + q <= 4 * k * (m + 1)
  {
    MulSucc(4 * k, m);
    MulMonotone(t, 2, 2 * k);
  }

  lemma MulSucc(a: int, n: int)
    ensures a * (n + 1) == a * n + a
  {
  }

  /** The row bulk_scrape stores for an attempt: the scrape of its khasra
      number, `str(khasra_num)`, with search type "khasra". */
  function AttemptRow(a: Attempt, draw: MockDraw): Row
  {
    ScrapedRow(a.district, a.tehsil, a.village, NatToString(a.khasra), draw)
  }

  /** How many of the first n attempts the storage accepted. */
  function Successes(n: nat, storageOk: nat -> bool): nat
  {
    if n == 0 then 0 else Successes(n - 1, storageOk) + (if storageOk(n - 1) then 1 else 0)
  }

  /** The table after the attempts of `plan`: attempt i draws `draws(i)` and
      reaches the table only when `storageOk(i)`. */
  function Replay(rows: seq<Row>, plan: seq<Attempt>, storageOk: nat -> bool, draws: nat -> MockDraw): seq<Row>
  {
    if plan == [] then rows
    else
      var i := |plan| - 1;
      var prev := Replay(rows, plan[..i], storageOk, draws);
      if storageOk(i) then Upsert(prev, AttemptRow(plan[i], draws(i))) else prev
  }

  /** The success counter never exceeds the number of attempts. */
  lemma {:induction false} SuccessesAtMost(n: nat, storageOk: nat -> bool)
    ensures Successes(n, storageOk) <= n
  {
    if n > 0 { SuccessesAtMost(n - 1, storageOk); }
  }

  /** Replaying attempts keeps the UNIQUE constraint, and the table grows by
      at most one row per accepted attempt. */
  lemma {:induction false} ReplayGrowth(rows: seq<Row>, plan: seq<Attempt>, storageOk: nat -> bool, draws: nat -> MockDraw)
    requires KeysUnique(rows)
    ensures KeysUnique(Replay(rows, plan, storageOk, draws))
    ensures |Replay(rows, plan, storageOk, draws)| <= |rows| + Successes(|plan|, storageOk)
  {
    if plan != [] {
      var i := |plan| - 1;
      ReplayGrowth(rows, plan[..i], storageOk, draws);
      var prev := Replay(rows, plan[..i], storageOk, draws);
      if storageOk(i) {
        UpsertKeepsUnique(prev, AttemptRow(plan[i], draws(i)));
      }
    }
  }

  /** bulk_scrape counts at most `max_records_per_district` successful
      inserts per district, and none at all when the cap is below 4. */
  lemma BulkScrapeBound(districts: seq<string>, maxPerDistrict: int, storageOk: nat -> bool)
    ensures var n := |Plan(districts, KhasraLimit(maxPerDistrict))|;
      Successes(n, storageOk) <= n
      && (maxPerDistrict >= 0 ==> Successes(n, storageOk) <= |districts| * maxPerDistrict)
      && (maxPerDistrict < 4 ==> n == 0)
  {
    var k := KhasraLimit(maxPerDistrict);
    var n := |Plan(districts, k)|;
    PlanLength(districts, k);
    SuccessesAtMost(n, storageOk);
    CapArithmetic(Successes(n, storageOk), n, k, |districts|, maxPerDistrict);
  }

  /** The arithmetic behind BulkScrapeBound: s <= n <= 4 * k * d, with k the
      khasra limit of `cap`. */
  lemma CapArithmetic(s: int, n: int, k: nat, d: nat, cap: int)
    requires s <= n <= 4 * k * d
    requires cap >= 0 ==> 4 * k <= cap
    requires cap < 4 ==> k == 0
    ensures cap >= 0 ==> s <= d * cap
    ensures cap < 4 ==> n <= 0
  {
    if cap >= 0 {
      MulMonotone(4 * k, cap, d);
    }
  }

  lemma MulMonotone(a: int, b: int, c: nat)
    requires a <= b
    ensures a * c <= b * c
  {
  }

  lemma AppendAttempt(done: seq<Attempt>, district: string, tehsil: string, village: string, n: nat)
    ensures done + VillageAttempts(district, tehsil, village, n) + [Attempt(district, tehsil, village, n + 1)]
         == done + VillageAttempts(district, tehsil, village, n + 1)
  {
    assert VillageAttempts(district, tehsil, village, n) + [Attempt(district, tehsil, village, n + 1)]
        == VillageAttempts(district, tehsil, village, n + 1);
  }

  lemma SuccessesSnoc(n: nat, storageOk: nat -> bool)
    ensures Successes(n + 1, storageOk) == Successes(n, storageOk) + (if storageOk(n) then 1 else 0)
  {
  }

  /** One more attempt extends the replay by that attempt's upsert, or by
      nothing when the storage refused it. */
  lemma ReplaySnoc(rows: seq<Row>, plan: seq<Attempt>, a: Attempt, storageOk: nat -> bool, draws: nat -> MockDraw)
    ensures Replay(rows, plan + [a], storageOk, draws)
         == var prev := Replay(rows, plan, storageOk, draws);
            if storageOk(|plan|) then Upsert(prev, AttemptRow(a, draws(|plan|))) else prev
  {
    assert (plan + [a])[..|plan|] == plan;
  }

  /** The body of the innermost loop of bulk_scrape: scrape the attempt's
      khasra number and insert the record. The scraped record always has its
      identity fields, so the insert succeeds exactly when the storage does. */
  method ScrapeAttempt(db: LandRecordDb, a: Attempt, draw: MockDraw, storageOk: bool) returns (ok: bool)
    requires db.Valid()
    modifies db
    ensures db.Valid()
    ensures ok == storageOk
    ensures db.landRecords == if ok then Upsert(old(db.landRecords), AttemptRow(a, draw)) else old(db.landRecords)
    ensures db.legalFaqs == old(db.legalFaqs) && db.userQueries == old(db.userQueries)
  {
    var record := ScrapeKhatauni(a.district, a.tehsil, a.village, "khasra", NatToString(a.khasra), draw);
    ok := db.InsertLandRecord(record, storageOk);
  }

  /** The innermost loop of bulk_scrape: khasra numbers 1 to KhasraLimit of
      one village, each scraped with draws `draws(n)` and inserted with
      outcome `storageOk(n)`, where n numbers the attempts made so far. */
  method ScrapeVillage(db: LandRecordDb, district: string, tehsil: string, village: string,
                       maxPerDistrict: int, storageOk: nat -> bool, draws: nat -> MockDraw,
                       ghost start: seq<Row>, ghost done: seq<Attempt>, n0: nat, total0: nat)
    returns (n: nat, totalScraped: nat)
    requires db.Valid()
    requires n0 == |done| && total0 == Successes(n0, storageOk)
    requires db.landRecords == Replay(start, done, storageOk, draws)
    modifies db
    ensures db.Valid()
    ensures n == |done| + KhasraLimit(maxPerDistrict) && totalScraped == Successes(n, storageOk)
    ensures db.landRecords == Replay(start, done + VillageAttempts(district, tehsil, village, KhasraLimit(maxPerDistrict)), storageOk, draws)
    ensures db.legalFaqs == old(db.legalFaqs) && db.userQueries == old(db.userQueries)
  {
    ghost var k := KhasraLimit(maxPerDistrict);
    n, totalScraped := n0, total0;
    var stop := Min(maxPerDistrict / 4 + 1, 6);
    assert k == if stop <= 1 then 0 else stop - 1;
    var khasraNum := 1;
    ghost var cur := done;
    assert done + VillageAttempts(district, tehsil, village, 0) == done;
    while khasraNum < stop
      invariant 1 <= khasraNum && khasraNum - 1 <= k
      invariant khasraNum > 1 ==> khasraNum <= stop
      invariant k == if stop <= 1 then 0 else stop - 1
      invariant cur == done + VillageAttempts(district, tehsil, village, khasraNum - 1)
      invariant db.Valid()
      invariant n == |cur| && totalScraped == Successes(n, storageOk)
      invariant db.landRecords == Replay(start, cur, storageOk, draws)
      invariant db.legalFaqs == old(db.legalFaqs) && db.userQueries == old(db.userQueries)
    {
      var a := Attempt(district, tehsil, village, khasraNum);
      var ok := ScrapeAttempt(db, a, draws(n), storageOk(n));
      if ok {
        totalScraped := totalScraped + 1;
      }
      ReplaySnoc(start, cur, a, storageOk, draws);
      SuccessesSnoc(n, storageOk);
      AppendAttempt(done, district, tehsil, village, khasraNum - 1);
      cur := cur + [a];
      n := n + 1;
      khasraNum := khasraNum + 1;
    }
  }

  lemma AppendAssoc(a: seq<Attempt>, b: seq<Attempt>, c: seq<Attempt>)
    ensures a + b + c == a + (b + c)
  {
  }

  lemma TehsilAttemptsSnoc(district: string, tehsil: string, villages: seq<string>, m: nat, k: nat)
    requires m < |villages|
    ensures TehsilAttempts(district, tehsil, villages[..m + 1], k)
         == TehsilAttempts(district, tehsil, villages[..m], k) + VillageAttempts(district, tehsil, villages[m], k)
  {
    assert villages[..m + 1][..m] == villages[..m];
  }

  lemma DistrictAttemptsSnoc(district: string, tehsils: seq<string>, j: nat, k: nat)
    requires j < |tehsils|
    ensures DistrictAttempts(district, tehsils[..j + 1], k)
         == DistrictAttempts(district, tehsils[..j], k)
            + TehsilAttempts(district, tehsils[j], Take(Villages(district, tehsils[j]), 2), k)
  {
    assert tehsils[..j + 1][..j] == tehsils[..j];
  }

  lemma PlanSnoc(districts: seq<string>, i: nat, k: nat)
    requires i < |districts|
    ensures Plan(districts[..i + 1], k)
         == Plan(districts[..i], k) + DistrictAttempts(districts[i], Take(Tehsils(districts[i]), 2), k)
  {
    assert districts[..i + 1][..i] == districts[..i];
  }

  /** The village loop of bulk_scrape for one tehsil: its first two
      villages, each through ScrapeVillage. */
  method ScrapeTehsil(db: LandRecordDb, district: string, tehsil: string,
                      maxPerDistrict: int, storageOk: nat -> bool, draws: nat -> MockDraw,
                      ghost start: seq<Row>, ghost done: seq<Attempt>, n0: nat, total0: nat)
    returns (n: nat, totalScraped: nat)
    requires db.Valid()
    requires n0 == |done| && total0 == Successes(n0, storageOk)
    requires db.landRecords == Replay(start, done, storageOk, draws)
    modifies db
    ensures db.Valid()
    ensures var plan := done + TehsilAttempts(district, tehsil, Take(Villages(district, tehsil), 2), KhasraLimit(maxPerDistrict));
      && n == |plan| && totalScraped == Successes(n, storageOk)
      && db.landRecords == Replay(start, plan, storageOk, draws)
    ensures db.legalFaqs == old(db.legalFaqs) && db.userQueries == old(db.userQueries)
  {
    ghost var k := KhasraLimit(maxPerDistrict);
    n, totalScraped := n0, total0;
    var villages := Take(Villages(district, tehsil), 2);
    ghost var cur := done;
    assert TehsilAttempts(district, tehsil, villages[..0], k) == [];
    var m := 0;
    while m < |villages|
      invariant 0 <= m <= |villages|
      invariant cur == done + TehsilAttempts(district, tehsil, villages[..m], k)
      invariant db.Valid()
      invariant n == |cur| && totalScraped == Successes(n, storageOk)
      invariant db.landRecords == Replay(start, cur, storageOk, draws)
      invariant db.legalFaqs == old(db.legalFaqs) && db.userQueries == old(db.userQueries)
    {
      var village := villages[m];
      n, totalScraped := ScrapeVillage(db, district, tehsil, village, maxPerDistrict, storageOk, draws,
                                       start, cur, n, totalScraped);
      TehsilAttemptsSnoc(district, tehsil, villages, m, k);
      AppendAssoc(done, TehsilAttempts(district, tehsil, villages[..m], k),
                  VillageAttempts(district, tehsil, village, k));
      cur := cur + VillageAttempts(district, tehsil, village, k);
      m := m + 1;
    }
    assert villages[..m] == villages;
    assert cur == done + TehsilAttempts(district, tehsil, villages, k);
  }

  /** The tehsil loop of bulk_scrape for one district: its first two
      tehsils, each through ScrapeTehsil. */
  method ScrapeDistrict(db: LandRecordDb, district: string,
                        maxPerDistrict: int, storageOk: nat -> bool, draws: nat -> MockDraw,
                        ghost start: seq<Row>, ghost done: seq<Attempt>, n0: nat, total0: nat)
    returns (n: nat, totalScraped: nat)
    requires db.Valid()
    requires n0 == |done| && total0 == Successes(n0, storageOk)
    requires db.landRecords == Replay(start, done, storageOk, draws)
    modifies db
    ensures db.Valid()
    ensures var plan := done + DistrictAttempts(district, Take(Tehsils(district), 2), KhasraLimit(maxPerDistrict));
      && n == |plan| && totalScraped == Successes(n, storageOk)
      && db.landRecords == Replay(start, plan, storageOk, draws)
    ensures db.legalFaqs == old(db.legalFaqs) && db.userQueries == old(db.userQueries)
  {
    ghost var k := KhasraLimit(maxPerDistrict);
    n, totalScraped := n0, total0;
    var tehsils := Take(Tehsils(district), 2);
    ghost var cur := done;
    assert DistrictAttempts(district, tehsils[..0], k) == [];
    var j := 0;
    while j < |tehsils|
      invariant 0 <= j <= |tehsils|
      invariant cur == done + DistrictAttempts(district, tehsils[..j], k)
      invariant db.Valid()
      invariant n == |cur| && totalScraped == Successes(n, storageOk)
      invariant db.landRecords == Replay(start, cur, storageOk, draws)
      invariant db.legalFaqs == old(db.legalFaqs) && db.userQueries == old(db.userQueries)
    {
      var tehsil := tehsils[j];
      n, totalScraped := ScrapeTehsil(db, district, tehsil, maxPerDistrict, storageOk, draws,
                                      start, cur, n, totalScraped);
      DistrictAttemptsSnoc(district, tehsils, j, k);
      AppendAssoc(done, DistrictAttempts(district, tehsils[..j], k),
                  TehsilAttempts(district, tehsil, Take(Villages(district, tehsil), 2), k));
      cur := cur + TehsilAttempts(district, tehsil, Take(Villages(district, tehsil), 2), k);
      j := j + 1;
    }
    assert tehsils[..j] == tehsils;
    assert cur == done + DistrictAttempts(district, tehsils, k);
  }

  /** `bulk_scrape`: for each district, its first two tehsils, their first
      two villages and khasra numbers `1 .. KhasraLimit` are scraped and
      upserted, one attempt after another; a failed insert is not counted
      and does not stop the loop. Attempt i uses the draws `draws(i)` and
      succeeds when `storageOk(i)`. The source opens the default database
      file; `db` is that file. The count is what the source prints at the
      end. */
  method BulkScrape(db: LandRecordDb, districts: seq<string>, maxPerDistrict: int,
                    storageOk: nat -> bool, draws: nat -> MockDraw) returns (totalScraped: nat)
    requires db.Valid()
    modifies db
    ensures db.Valid()
    ensures totalScraped == Successes(|Plan(districts, KhasraLimit(maxPerDistrict))|, storageOk)
    ensures db.landRecords == Replay(old(db.landRecords), Plan(districts, KhasraLimit(maxPerDistrict)), storageOk, draws)
    ensures db.legalFaqs == old(db.legalFaqs) && db.userQueries == old(db.userQueries)
  {
    ghost var k := KhasraLimit(maxPerDistrict);
    ghost var start := db.landRecords;
    ghost var cur: seq<Attempt> := [];
    totalScraped := 0;
    var n := 0;
    var i := 0;
    while i < |districts|
      invariant 0 <= i <= |districts|
      invariant cur == Plan(districts[..i], k)
      invariant db.Valid()
      invariant n == |cur| && totalScraped == Successes(n, storageOk)
      invariant db.landRecords == Replay(start, cur, storageOk, draws)
      invariant db.legalFaqs == old(db.legalFaqs) && db.userQueries == old(db.userQueries)
    {
      var district := districts[i];
      n, totalScraped := ScrapeDistrict(db, district, maxPerDistrict, storageOk, draws,
                                        start, cur, n, totalScraped);
      PlanSnoc(districts, i, k);
      cur := cur + DistrictAttempts(district, Take(Tehsils(district), 2), k);
      i := i + 1;
    }
    assert districts[..i] == districts;
  }
}
