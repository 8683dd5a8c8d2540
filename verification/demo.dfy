/** `LandGPTPhase1Demo`: the scripted user interaction (log every query, then
    answer it through a fixed keyword chain), the FAQ search request, and
    the recommendation rules of the completion report. What the demo's
    SELECTs return is given as parameters. */
module Phase1Demo {
  import opened Text
  import opened LandRecords
  import opened Scraper
  import opened FaqLoader

  // ----- classification -------------------------------------------------------

  /** The branch of demo_mock_user_interaction that answers a query. */
  datatype DemoTopic = MutationTopic | KhasraTopic | AgraTopic | GenericTopic

  const DemoMutationKeywords: seq<string> := ["mutation", "म्यूटेशन"]

  /** The if/elif chain of demo_mock_user_interaction, in its order:
      mutation keywords, then "khasra", then "agra". */
  const DemoRules: seq<Rule<DemoTopic>> := [
    Rule(MutationTopic, DemoMutationKeywords),
    Rule(KhasraTopic, ["khasra"]),
    Rule(AgraTopic, ["agra"])]

  /** The branch that answers `query.lower()`; the generic answer when no
      rule matches. */
  function DemoClassify(query: string): DemoTopic
  {
    FirstMatch(DemoRules, Lower(query), GenericTopic)
  }

  /** Exactly one branch answers: the first rule whose keywords occur in the
      lower-cased query, or the generic branch when none does. A mutation
      keyword wins over everything, "khasra" only fires without a mutation
      keyword, "agra" only without both. */
  lemma DemoClassifyIsFirstMatch(query: string)
    ensures DemoClassify(query) == GenericTopic <==> NoMatch(DemoRules, Lower(query))
    ensures forall i :: FirstMatchAt(DemoRules, Lower(query), i) ==> DemoClassify(query) == DemoRules[i].topic
    ensures DemoClassify(query) != GenericTopic ==>
      exists i :: FirstMatchAt(DemoRules, Lower(query), i) && DemoRules[i].topic == DemoClassify(query)
  {
    FirstMatchSpec(DemoRules, Lower(query), GenericTopic);
    assert forall i :: 0 <= i < |DemoRules| ==> DemoRules[i].topic != GenericTopic;
  }

  // ----- replies --------------------------------------------------------------

  /** What the demo's three SELECTs return: the first FAQ answer tagged
      mutation, the first FAQ answer whose question mentions Khasra, and the
      COUNT and SUM(area_hectare) of the Agra records (SUM is NULL when no
      area is set). */
  datatype DemoLookups = DemoLookups(
    mutationAnswer: Option<string>, khasraAnswer: Option<string>,
    agraCount: nat, agraTotalArea: Option<real>)

  /** A printed answer: an excerpt of a stored FAQ answer, a fixed message,
      or the Agra count and total area. */
  datatype DemoReply = FaqExcerpt(text: string) | Canned(text: string) | AgraTotals(count: nat, totalArea: real)

  const MutationFallback: string := "I can help with mutation processes. Let me find more information."
  const KhasraFallback: string := "Khasra number is a unique identifier for land plots."
  const AgraFallback: string := "Let me search for Agra land records..."
  const GenericReply: string := "मैं आपकी भूमि संबंधी समस्या में मदद कर सकता हूं। कृपया अधिक विवरण दें।"

  /** `answer[:200]`. */
  function Excerpt(answer: string): string
  {
    Take(answer, 200)
  }

  /** A FAQ answer found by a lookup is shown as an excerpt; no answer gives
      the branch's fixed message. */
  function FaqReply(answer: Option<string>, fallback: string): DemoReply
  {
    if answer.Some? then FaqExcerpt(Excerpt(answer.value)) else Canned(fallback)
  }

  /** `value or 0` for a SUM that may be NULL. */
  function OrZero(x: Option<real>): real
  {
    if x.Some? then x.value else 0.0
  }

  /** `text` is `answer[:200]`: the start of the answer, 200 characters
      long or the whole answer when it is shorter. */
  predicate IsExcerpt(text: string, answer: string)
  {
    |text| == Min(200, |answer|) && text <= answer
  }

  /** A branch that looks up a FAQ answer: the excerpt of the answer found,
      or the branch's fixed message when there is none. */
  predicate AnswersFromFaq(r: DemoReply, answer: Option<string>, fallback: string)
  {
    && (answer.Some? ==> r.FaqExcerpt? && IsExcerpt(r.text, answer.value))
    && (answer.None? ==> r == Canned(fallback))
  }

  /** The reply demo_mock_user_interaction prints for one query. Each
      branch has its own reply: the mutation and khasra branches show the
      excerpt of their own lookup's answer, or their own fixed message when
      the lookup found nothing; the Agra branch reports the count and the
      total area (a NULL sum read as 0) for a positive count and its fixed
      message otherwise; every other query gets the generic reply. */
  function DemoReplyFor(query: string, lookups: DemoLookups): (r: DemoReply)
    ensures DemoClassify(query) == MutationTopic ==> AnswersFromFaq(r, lookups.mutationAnswer, MutationFallback)
    ensures DemoClassify(query) == KhasraTopic ==> AnswersFromFaq(r, lookups.khasraAnswer, KhasraFallback)
    ensures DemoClassify(query) == AgraTopic && lookups.agraCount > 0 ==>
      r.AgraTotals? && r.count == lookups.agraCount
      && (lookups.agraTotalArea.None? ==> r.totalArea == 0.0)
      && (lookups.agraTotalArea.Some? ==> r.totalArea == lookups.agraTotalArea.value)
    ensures DemoClassify(query) == AgraTopic && lookups.agraCount == 0 ==> r == Canned(AgraFallback)
    ensures DemoClassify(query) == GenericTopic ==> r == Canned(GenericReply)
  {
    match DemoClassify(query)
    case MutationTopic => FaqReply(lookups.mutationAnswer, MutationFallback)
    case KhasraTopic => FaqReply(lookups.khasraAnswer, KhasraFallback)
    case AgraTopic =>
      if lookups.agraCount > 0 then AgraTotals(lookups.agraCount, OrZero(lookups.agraTotalArea))
      else Canned(AgraFallback)
    case GenericTopic => Canned(GenericReply)
  }

  // ----- the interaction loop -------------------------------------------------

  /** The `user_queries` rows the demo writes: each query with no response
      and query_type "demo", in order. */
  function DemoLog(queries: seq<string>): (log: seq<QueryLogEntry>)
    ensures |log| == |queries|
    ensures forall i :: 0 <= i < |queries| ==> log[i] == QueryLogEntry(queries[i], None, Some("demo"))
  {
    seq(|queries|, i requires 0 <= i < |queries| => QueryLogEntry(queries[i], None, Some("demo")))
  }

  /** Each query is logged exactly once: the log rows the demo adds hold each
      query as often as the query list does. */
  lemma DemoLogCounts(queries: seq<string>, q: string)
    ensures |set i | 0 <= i < |DemoLog(queries)| && DemoLog(queries)[i].query == q|
         == |set i | 0 <= i < |queries| && queries[i] == q|
  {
    var log := DemoLog(queries);
    assert (set i | 0 <= i < |log| && log[i].query == q) == (set i | 0 <= i < |queries| && queries[i] == q);
  }

  /** The connection the statistics query runs on. */
  datatype Connection = Open | Closed

  const ClosedDatabaseError: string := "Cannot operate on a closed database."

  /** `SELECT COUNT(*) FROM user_queries`: fails on a closed connection. */
  function CountQueries(conn: Connection, log: seq<QueryLogEntry>): (r: Result<nat, string>)
    ensures r.Success? <==> conn.Open?
    ensures r.Success? ==> r.value == |log|
  {
    if conn == Closed then Failure(ClosedDatabaseError) else Success(|log|)
  }

  /** The statistics step as written: the connection is closed first and
      then handed to the query, which raises. */
  function QueryStatsAsWritten(log: seq<QueryLogEntry>): Result<nat, string>
  {
    CountQueries(Closed, log)
  }

  /** Whatever the log holds, the statistics step as written raises instead
      of printing the total. */
  lemma QueryStatsAsWrittenFails(log: seq<QueryLogEntry>)
    ensures QueryStatsAsWritten(log) == Failure(ClosedDatabaseError)
  {
  }

  /** `demo_mock_user_interaction` with the statistics read before the
      connection is closed: each query is logged, then answered. The i-th
      log INSERT is accepted when `logOk(i)`; the first refused one raises
      out of the method, so only the queries before it are logged and
      answered and no total is read. Otherwise the result holds the total
      number of logged queries. */
  method DemoMockUserInteraction(db: LandRecordDb, queries: seq<string>, lookups: DemoLookups, logOk: nat -> bool)
    returns (replies: seq<DemoReply>, total: Option<nat>)
    modifies db
    ensures var k := FirstRefusal(logOk, |queries|);
      && db.userQueries == old(db.userQueries) + DemoLog(queries[..k])
      && |replies| == k
      && (forall i :: 0 <= i < k ==> replies[i] == DemoReplyFor(queries[i], lookups))
      && (total.Some? <==> k == |queries|)
    ensures total.Some? ==> total.value == |old(db.userQueries)| + |queries|
    ensures db.landRecords == old(db.landRecords) && db.legalFaqs == old(db.legalFaqs)
  {
    replies := [];
    var i := 0;
    while i < |queries|
      invariant 0 <= i <= |queries|
      invariant forall j :: 0 <= j < i ==> logOk(j)
      invariant db.userQueries == old(db.userQueries) + DemoLog(queries[..i])
      invariant |replies| == i
      invariant forall j :: 0 <= j < i ==> replies[j] == DemoReplyFor(queries[j], lookups)
      invariant db.landRecords == old(db.landRecords) && db.legalFaqs == old(db.legalFaqs)
    {
      var query := queries[i];
      if !logOk(i) {
        assert FirstRefusal(logOk, |queries|) == i;
        return replies, None;
      }
      db.userQueries := db.userQueries + [QueryLogEntry(query, None, Some("demo"))];
      assert DemoLog(queries[..i + 1]) == DemoLog(queries[..i]) + [QueryLogEntry(query, None, Some("demo"))];
      replies := replies + [DemoReplyFor(query, lookups)];
      i := i + 1;
    }
    assert queries[..i] == queries;
    var stats := CountQueries(Open, db.userQueries);
    total := Some(stats.value);
  }

  // ----- FAQ search -----------------------------------------------------------

  const SearchTerms: seq<string> := ["mutation", "म्यूटेशन", "registry"]

  /** The line break and indentation inside the triple-quoted query. */
  const Indent: string := "\n            "

  const FaqSearchSelect: string :=
    Indent + "SELECT question, answer, category" + Indent + "FROM legal_faqs" + Indent + "WHERE "
  const FaqSearchWhere: string :=
    "question LIKE " + "?" + " OR answer LIKE " + "?" + " OR tags LIKE " + "?"
  const FaqSearchLimit: string := Indent + "LIMIT 2" + Indent

  /** The query text demo_faq_search sends for every term. */
  const FaqSearchQuery: string := FaqSearchSelect + FaqSearchWhere + FaqSearchLimit

  /** The parameters it binds for a term: `%term%` for question, answer and
      tags. */
  function FaqSearchParams(term: string): seq<string>
  {
    [LikeParam(term), LikeParam(term), LikeParam(term)]
  }

  lemma NoSlots(a: string, b: string, c: string)
    requires '?' !in a && '?' !in b && '?' !in c
    ensures CountChar(a + b + c, '?') == 0
  {
    CountCharAbsent(a, '?');
    CountCharAbsent(b, '?');
    CountCharAbsent(c, '?');
    CountCharAppend(a, b, '?');
    CountCharAppend(a + b, c, '?');
  }

  /** Three '?'-free pieces, each followed by a placeholder, hold exactly
      three placeholders. */
  lemma ThreeSlots(a: string, b: string, c: string)
    requires '?' !in a && '?' !in b && '?' !in c
    ensures CountChar(a + "?" + b + "?" + c + "?", '?') == 3
  {
    CountCharAbsent(a, '?');
    CountCharAbsent(b, '?');
    CountCharAbsent(c, '?');
    CountCharAppend(a, "?", '?');
    CountCharAppend(a + "?", b, '?');
    CountCharAppend(a + "?" + b, "?", '?');
    CountCharAppend(a + "?" + b + "?", c, '?');
    CountCharAppend(a + "?" + b + "?" + c, "?", '?');
  }

  lemma FaqSearchSelectPlaceholders()
    ensures CountChar(FaqSearchSelect, '?') == 0
  {
    NoSlots(Indent + "SELECT question, answer, category", Indent, "FROM legal_faqs");
    NoSlots(Indent + "SELECT question, answer, category" + Indent + "FROM legal_faqs", Indent, "WHERE ");
  }

  lemma FaqSearchWherePlaceholders()
    ensures CountChar(FaqSearchWhere, '?') == 3
  {
    ThreeSlots("question LIKE ", " OR answer LIKE ", " OR tags LIKE ");
  }

  lemma FaqSearchLimitPlaceholders()
    ensures CountChar(FaqSearchLimit, '?') == 0
  {
    NoSlots(Indent, "LIMIT 2", Indent);
  }

  /** The FAQ search binds one parameter per placeholder, and all three are
      the same `%term%` pattern. */
  lemma FaqSearchBindsEveryPlaceholder(term: string)
    ensures CountChar(FaqSearchQuery, '?') == |FaqSearchParams(term)| == 3
    ensures forall i :: 0 <= i < 3 ==> FaqSearchParams(term)[i] == "%" + term + "%"
  {
    var select, where, limit := FaqSearchSelect, FaqSearchWhere, FaqSearchLimit;
    FaqSearchSelectPlaceholders();
    FaqSearchWherePlaceholders();
    FaqSearchLimitPlaceholders();
    CountCharAppend(select, where, '?');
    CountCharAppend(select + where, limit, '?');
  }

  /** One row the FAQ search shows: question, answer preview and category. */
  datatype FaqHit = FaqHit(question: string, answer: string, category: string)

  /** `row['answer'][:100]`. */
  function Preview(hit: FaqHit): FaqHit
  {
    FaqHit(hit.question, Take(hit.answer, 100), hit.category)
  }

  /** `demo_faq_search`: for each search term, the query text and
      parameters it sends, and the rows the query returns (`matches(term)`,
      cut to LIMIT 2) with their answers cut to 100 characters; an empty
      list prints "No matching FAQs found". */
  method DemoFaqSearch(matches: string -> seq<FaqHit>)
    returns (requests: seq<(string, seq<string>)>, shown: seq<seq<FaqHit>>)
    ensures |requests| == |shown| == |SearchTerms|
    ensures forall t :: 0 <= t < |SearchTerms| ==>
      requests[t] == (FaqSearchQuery, FaqSearchParams(SearchTerms[t]))
    ensures forall t :: 0 <= t < |SearchTerms| ==>
      |shown[t]| == Min(2, |matches(SearchTerms[t])|)
      && forall j :: 0 <= j < |shown[t]| ==>
           var hit := matches(SearchTerms[t])[j];
           shown[t][j].question == hit.question && shown[t][j].category == hit.category
           && shown[t][j].answer == Take(hit.answer, 100)
  {
    requests, shown := [], [];
    var t := 0;
    while t < |SearchTerms|
      invariant 0 <= t <= |SearchTerms|
      invariant |requests| == |shown| == t
      invariant forall u :: 0 <= u < t ==> requests[u] == (FaqSearchQuery, FaqSearchParams(SearchTerms[u]))
      invariant forall u :: 0 <= u < t ==>
        |shown[u]| == Min(2, |matches(SearchTerms[u])|)
        && forall j :: 0 <= j < |shown[u]| ==>
             var hit := matches(SearchTerms[u])[j];
             shown[u][j].question == hit.question && shown[u][j].category == hit.category
             && shown[u][j].answer == Take(hit.answer, 100)
    {
      var term := SearchTerms[t];
      requests := requests + [(FaqSearchQuery, FaqSearchParams(term))];
      var rows := Take(matches(term), 2);
      var previews := seq(|rows|, j requires 0 <= j < |rows| => Preview(rows[j]));
      shown := shown + [previews];
      t := t + 1;
    }
  }

  // ----- the completion report ------------------------------------------------

  /** The counts generate_phase1_report reads. COUNT(DISTINCT ...) counts the
      distinct values of a NOT NULL column. */
  datatype ReportStats = ReportStats(landRecords: nat, faqs: nat, queries: nat,
                                     districts: nat, tehsils: nat, villages: nat)

  function Phase1Stats(t: Tables): (s: ReportStats)
    ensures s.landRecords == |t.landRecords| && s.faqs == |t.legalFaqs| && s.queries == |t.userQueries|
  {
    ReportStats(|t.landRecords|, |t.legalFaqs|, |t.userQueries|,
                DistinctCount(t.landRecords, KeyDistrict),
                DistinctCount(t.landRecords, KeyTehsil),
                DistinctCount(t.landRecords, KeyVillage))
  }

  function KeyDistrict(r: Row): Value { r.key.district }
  function KeyTehsil(r: Row): Value { r.key.tehsil }
  function KeyVillage(r: Row): Value { r.key.village }

  /** `COUNT(DISTINCT column)` over the rows. */
  function DistinctCount(rows: seq<Row>, column: Row -> Value): nat
  {
    |set r | r in rows :: column(r)|
  }

  /** The report's recommendations, in printed order. */
  datatype Recommendation = MoreSampleData | MoreFaqs | RealBhulekhApi | DataValidation | AutomatedRefresh

  function Recommendations(s: ReportStats): (r: seq<Recommendation>)
    ensures MoreSampleData in r <==> s.landRecords < 100
    ensures MoreFaqs in r <==> s.faqs < 20
    ensures |r| >= 3 && r[|r| - 3..] == [RealBhulekhApi, DataValidation, AutomatedRefresh]
  {
    (if s.landRecords < 100 then [MoreSampleData] else [])
    + (if s.faqs < 20 then [MoreFaqs] else [])
    + [RealBhulekhApi, DataValidation, AutomatedRefresh]
  }

  /** Distinct counts never exceed the number of rows. */
  lemma StatsAtMostRows(t: Tables)
    ensures var s := Phase1Stats(t);
      s.districts <= s.landRecords && s.tehsils <= s.landRecords && s.villages <= s.landRecords
  {
    DistinctAtMost(t.landRecords, KeyDistrict);
    DistinctAtMost(t.landRecords, KeyTehsil);
    DistinctAtMost(t.landRecords, KeyVillage);
  }

  lemma {:induction false} DistinctAtMost(rows: seq<Row>, f: Row -> Value)
    ensures DistinctCount(rows, f) <= |rows|
  {
    if rows != [] {
      var init := rows[..|rows| - 1];
      DistinctAtMost(init, f);
      assert (set r | r in rows :: f(r)) == (set r | r in init :: f(r)) + {f(rows[|rows| - 1])} by {
        forall r | r in rows ensures r in init || r == rows[|rows| - 1] {
          var j :| 0 <= j < |rows| && rows[j] == r;
          if j < |rows| - 1 { assert init[j] == r; }
        }
      }
    }
  }

  /** After the setup script runs on a new file (three sample FAQs, then
      bulk_scrape of the first three districts with a cap of 8), the report
      recommends both more sample data and more FAQs, whatever the storage
      outcomes and draws. */
  lemma FreshSetupRecommendsMore(storageOk: nat -> bool, draws: nat -> MockDraw, queries: seq<QueryLogEntry>)
    ensures var rows := Replay([], Plan(Districts[..3], KhasraLimit(8)), storageOk, draws);
      var s := Phase1Stats(Tables(rows, SampleFaqs, queries));
      MoreSampleData in Recommendations(s) && MoreFaqs in Recommendations(s)
  {
    var plan := Plan(Districts[..3], KhasraLimit(8));
    ReplayGrowth([], plan, storageOk, draws);
    BulkScrapeBound(Districts[..3], 8, storageOk);
    SampleFaqsDistinct();
  }
}
