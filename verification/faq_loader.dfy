/** `LegalFAQLoader`: the three sample legal FAQs and the plain INSERT that
    stores each of them in `legal_faqs`. The table has no uniqueness
    constraint, so loading the samples again stores them again. */
module FaqLoader {
  import opened Text
  import opened LandRecords

  /** The FAQs `load_sample_faqs` inserts, in its order. */
  const SampleFaqs: seq<Faq> := [
    Faq(
      "Mutation ke liye application kaise karein?",
      "म्यूटेशन के लिए आवेदन की प्रक्रिया:\n1. जिला कलेक्ट्रेट या तहसील कार्यालय जाएं\n2. म्यूटेशन आवेदन फॉर्म भरें\n3. आवश्यक दस्तावेज संलग्न करें: बिक्री पत्र, रसीद, आधार कार्ड\n4. निर्धारित शुल्क का भुगतान करें\n5. आवेदन जमा करने के बाद रसीद प्राप्त करें\n6. 30 दिन में प्रक्रिया पूरी हो जाती है",
      "mutation", "mutation,application,process", "hindi"),
    Faq(
      "Khasra number kya hota hai?",
      "खसरा नंबर का मतलब:\nखसरा नंबर भूमि के एक टुकड़े का विशिष्ट पहचान संख्या है। यह:\n- हर जमीन के प्लॉट का अलग नंबर होता है\n- सरकारी रिकॉर्ड में जमीन की पहचान के लिए उपयोग होता है\n- खतौनी में दर्ज होता है\n- जमीन खरीदने-बेचने में जरूरी है",
      "basic_terms", "khasra,land_records,identification", "hindi"),
    Faq(
      "Registry ke documents kya chahiye?",
      "रजिस्ट्री के लिए आवश्यक दस्तावेज:\n1. मूल बिक्री पत्र (Sale Deed)\n2. पुराना रजिस्ट्री दस्तावेज\n3. खसरा/खतौनी की प्रति\n4. आधार कार्ड (खरीदार और बेचने वाले का)\n5. PAN कार्ड\n6. NOC (यदि कोई लोन है)\n7. फोटो\n8. रजिस्ट्री फीस की रसीद",
      "registry", "registry,documents,required", "hindi")]

  /** The three samples are different FAQs: no two share a question. */
  lemma SampleFaqsDistinct()
    ensures |SampleFaqs| == 3
    ensures forall i, j :: 0 <= i < j < |SampleFaqs| ==> SampleFaqs[i].question != SampleFaqs[j].question
  {
  }

  /** Nothing stops a second load: every sample FAQ is then stored twice
      more than before the two loads. */
  lemma ReloadDuplicates(faqs: seq<Faq>, i: int)
    requires 0 <= i < |SampleFaqs|
    ensures multiset(faqs + SampleFaqs + SampleFaqs)[SampleFaqs[i]] == multiset(faqs)[SampleFaqs[i]] + 2
  {
    SampleFaqsDistinct();
    assert multiset(SampleFaqs)[SampleFaqs[i]] == 1;
  }

  /** `LegalFAQLoader`: it opens the default database file, which is `db`. */
  class LegalFaqLoader {
    const db: LandRecordDb

    constructor (db: LandRecordDb)
      ensures this.db == db
    {
      this.db := db;
    }

    /** `insert_faq`: one INSERT, committed; the FAQ becomes the last row.
        `storageOk` says whether the storage accepts the write; when it does
        not, the INSERT raises (there is no try) and the table is as it
        was. */
    method InsertFaq(faq: Faq, storageOk: bool) returns (ok: bool)
      modifies db
      ensures ok == storageOk
      ensures db.legalFaqs == old(db.legalFaqs) + (if ok then [faq] else [])
      ensures db.landRecords == old(db.landRecords) && db.userQueries == old(db.userQueries)
    {
      ok := storageOk;
      if ok {
        db.legalFaqs := db.legalFaqs + [faq];
      }
    }

    /** `load_sample_faqs`: inserts the sample FAQs one after another, the
        i-th write accepted when `storageOk(i)`. The first refused write
        raises out of the loop, so the FAQs before it stay stored and the
        rest are never written; `completed` is false exactly then. */
    method LoadSampleFaqs(storageOk: nat -> bool) returns (completed: bool)
      modifies db
      ensures var k := FirstRefusal(storageOk, |SampleFaqs|);
        db.legalFaqs == old(db.legalFaqs) + SampleFaqs[..k]
        && (completed <==> k == |SampleFaqs|)
      ensures db.landRecords == old(db.landRecords) && db.userQueries == old(db.userQueries)
    {
      var i := 0;
      while i < |SampleFaqs|
        invariant 0 <= i <= |SampleFaqs|
        invariant forall j :: 0 <= j < i ==> storageOk(j)
        invariant db.legalFaqs == old(db.legalFaqs) + SampleFaqs[..i]
        invariant db.landRecords == old(db.landRecords) && db.userQueries == old(db.userQueries)
      {
        var ok := InsertFaq(SampleFaqs[i], storageOk(i));
        if !ok {
          assert FirstRefusal(storageOk, |SampleFaqs|) == i;
          return false;
        }
        assert SampleFaqs[..i + 1] == SampleFaqs[..i] + [SampleFaqs[i]];
        i := i + 1;
      }
      assert SampleFaqs[..i] == SampleFaqs;
      completed := true;
    }
  }
}
