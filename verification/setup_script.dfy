/** The setup script's main block: open the database file, load the sample
    FAQs, bulk-scrape the first three districts with a cap of 8 records each
    and search the result for Agra. */
module SetupScript {
  import opened Text
  import opened LandRecords
  import opened Scraper
  import opened FaqLoader

  /** The main block run on a database file holding `file`. The FAQ load
      stores the samples up to the first write the storage refuses
      (`faqStorageOk`); a refused FAQ write raises out of the main block,
      which then neither scrapes nor searches. Otherwise the land records
      are those of replaying the bulk scrape plan over the file's rows and
      the closing search asks for `district LIKE '%Agra%'`. The query log
      is untouched either way. */
  method SetupMain(file: Tables, faqStorageOk: nat -> bool, storageOk: nat -> bool, draws: nat -> MockDraw)
    returns (db: LandRecordDb, search: Option<(string, seq<string>)>)
    requires KeysUnique(file.landRecords)
    ensures fresh(db) && db.Valid()
    ensures var k := FirstRefusal(faqStorageOk, |SampleFaqs|);
      db.legalFaqs == file.legalFaqs + SampleFaqs[..k]
      && (search.Some? <==> k == |SampleFaqs|)
    ensures search.None? ==> db.landRecords == file.landRecords
    ensures search.Some? ==>
      db.landRecords == Replay(file.landRecords, Plan(Districts[..3], KhasraLimit(8)), storageOk, draws)
      && search.value == (SelectAll + Clauses(AgraSearch), Params(AgraSearch))
    ensures db.userQueries == file.userQueries
  {
    db := new LandRecordDb(file);
    var loader := new LegalFaqLoader(db);
    var loaded := loader.LoadSampleFaqs(faqStorageOk);
    if !loaded {
      return db, None;
    }
    var districts := Districts[..3];
    var totalScraped := BulkScrape(db, districts, 8, storageOk, draws);
    var query, params := db.SearchLandRecords(AgraSearch);
    search := Some((query, params));
  }

  /** `search_land_records(district="Agra")`. */
  const AgraSearch: seq<Criterion> := [Criterion(Name(District), Some("Agra"))]

  /** The closing search sends one LIKE clause on the district column and
      binds `%Agra%` to it. */
  lemma AgraSearchQuery()
    ensures SelectAll + Clauses(AgraSearch) == SelectAll + " AND district LIKE ?"
    ensures Params(AgraSearch) == ["%Agra%"]
  {
    assert Clauses(AgraSearch) == "" + LikeClause("district");
    assert Truthy(AgraSearch[0].value);
    assert Params(AgraSearch) == [] + [LikeParam("Agra")];
    assert LikeParam("Agra") == "%Agra%";
  }
}
