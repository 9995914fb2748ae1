/**
 * The upload controller: its own copy of `processImage` and the
 * `uploadImages` handler, which processes every uploaded image and reports
 * the name and type of each verified card.
 *
 * The controller's `cleanCardName`, `findCardName` and `verifyCardName` are
 * the same code as the OCR utilities' and are modelled once, in `CardName`
 * and `CardMatch`.
 */
module UploadController {
  import opened Wrappers
  import opened CardMatch
  import opened OcrPipeline
  import Seqs

  /**
   * The controller's `processImage`. It differs from the utilities' only in
   * the error outcome, whose file name is the original name with no fallback.
   */
  function ProcessImage(file: ImageFile, catalog: Catalog): (r: Outcome)
    ensures r.filename == file.originalName
    ensures r.success <==> r.verifiedCard.Some?
    ensures r.error.Some? <==> !file.detection.Annotated?
  {
    match file.detection
    case DetectionFailed(message) =>
      Outcome(file.originalName, false, None, None, Some(message))
    case NoAnnotations =>
      Outcome(file.originalName, false, None, None, Some("No text detected"))
    case Annotated(description) =>
      var cleanedName := OcrName(description);
      var verifiedCard := Verify(cleanedName, catalog(SearchTerm(cleanedName)));
      Outcome(file.originalName, verifiedCard.Some?, Some(cleanedName), verifiedCard, None)
  }

  /**
   * The two copies of `processImage` give the same outcome except for the
   * file name of a failed detection on a file with an empty name.
   */
  lemma SameAsUtility(file: ImageFile, catalog: Catalog)
    ensures ProcessImage(file, catalog) == OcrPipeline.ProcessImage(file, catalog)
            <==> !(file.detection.DetectionFailed? && file.originalName == "")
  {
  }

  /** One entry of `processedCards`. */
  datatype ProcessedCard = ProcessedCard(name: string, cardType: string)

  /** The controller's response: a 400 with a message, or the processed cards. */
  datatype Response = BadRequest(message: string) | Processed(message: string, processedCards: seq<ProcessedCard>)

  predicate Verified(result: Outcome) {
    result.success && result.verifiedCard.Some?
  }

  function ToProcessedCard(result: Outcome): ProcessedCard
    requires result.verifiedCard.Some?
  {
    ProcessedCard(result.verifiedCard.value.name, result.verifiedCard.value.cardType)
  }

  /** `.map(r => ({ name, type }))`: the name and type of each kept result, in order. */
  function CardsOf(kept: seq<Outcome>): (r: seq<ProcessedCard>)
    requires forall i :: 0 <= i < |kept| ==> kept[i].verifiedCard.Some?
    ensures |r| == |kept|
    ensures forall i :: 0 <= i < |kept| ==> r[i] == ToProcessedCard(kept[i])
  {
    seq(|kept|, i requires 0 <= i < |kept| => ToProcessedCard(kept[i]))
  }

  lemma CardsOfAppend(x: seq<Outcome>, y: seq<Outcome>)
    requires forall i :: 0 <= i < |x| ==> x[i].verifiedCard.Some?
    requires forall i :: 0 <= i < |y| ==> y[i].verifiedCard.Some?
    ensures CardsOf(x + y) == CardsOf(x) + CardsOf(y)
  {
    var r, rx, ry := CardsOf(x + y), CardsOf(x), CardsOf(y);
    forall i | 0 <= i < |r| ensures r[i] == (rx + ry)[i] {
      if i < |x| {
        assert (x + y)[i] == x[i];
      } else {
        assert (x + y)[i] == y[i - |x|];
      }
    }
  }

  /**
   * `results.filter(r => r.success && r.verifiedCard).map(r => ({name, type}))`:
   * one entry per verified result, in the order of the results.
   */
  function ProcessedCards(results: seq<Outcome>): (r: seq<ProcessedCard>)
    ensures |r| <= |results|
  {
    KeptAreVerified(results);
    CardsOf(Seqs.Filter(results, Verified))
  }

  /** `card` is the entry of some verified result. */
  ghost predicate CardOfSome(results: seq<Outcome>, card: ProcessedCard) {
    exists j :: 0 <= j < |results| && Verified(results[j]) && card == ToProcessedCard(results[j])
  }

  /**
   * Every entry of `processedCards` is the name and type of a verified
   * result, and every verified result contributes its entry.
   */
  lemma ProcessedCardsSpec(results: seq<Outcome>)
    ensures forall i :: 0 <= i < |ProcessedCards(results)| ==> CardOfSome(results, ProcessedCards(results)[i])
    ensures forall j :: 0 <= j < |results| && Verified(results[j]) ==> ToProcessedCard(results[j]) in ProcessedCards(results)
  {
    var kept := Seqs.Filter(results, Verified);
    KeptAreVerified(results);
    var r := ProcessedCards(results);
    assert r == CardsOf(kept);
    forall i | 0 <= i < |r| ensures CardOfSome(results, r[i]) {
      CardSource(results, kept, i);
    }
    forall j | 0 <= j < |results| && Verified(results[j]) ensures ToProcessedCard(results[j]) in r {
      KeptCard(results, kept, j);
    }
  }

  lemma KeptAreVerified(results: seq<Outcome>)
    ensures var kept := Seqs.Filter(results, Verified);
            forall i :: 0 <= i < |kept| ==> kept[i].verifiedCard.Some? && kept[i] in results
  {
    var kept := Seqs.Filter(results, Verified);
    forall i | 0 <= i < |kept| ensures kept[i].verifiedCard.Some? && kept[i] in results {
      assert Verified(kept[i]);
    }
  }

  lemma CardSource(results: seq<Outcome>, kept: seq<Outcome>, i: nat)
    requires kept == Seqs.Filter(results, Verified)
    requires forall i :: 0 <= i < |kept| ==> kept[i].verifiedCard.Some? && kept[i] in results
    requires i < |kept|
    ensures CardOfSome(results, CardsOf(kept)[i])
  {
    var j :| 0 <= j < |results| && results[j] == kept[i];
    assert Verified(results[j]);
    assert CardsOf(kept)[i] == ToProcessedCard(results[j]);
  }

  lemma KeptCard(results: seq<Outcome>, kept: seq<Outcome>, j: nat)
    requires kept == Seqs.Filter(results, Verified)
    requires forall i :: 0 <= i < |kept| ==> kept[i].verifiedCard.Some?
    requires j < |results| && Verified(results[j])
    ensures ToProcessedCard(results[j]) in CardsOf(kept)
  {
    assert results[j] in kept;
    var i :| 0 <= i < |kept| && kept[i] == results[j];
    assert CardsOf(kept)[i] == ToProcessedCard(results[j]);
  }

  /** The cards of a concatenation of results are the cards of each part, in order. */
  lemma {:induction false} ProcessedCardsAppend(a: seq<Outcome>, b: seq<Outcome>)
    ensures ProcessedCards(a + b) == ProcessedCards(a) + ProcessedCards(b)
  {
    Seqs.FilterAppend(a, b, Verified);
    KeptAreVerified(a);
    KeptAreVerified(b);
    KeptAreVerified(a + b);
    CardsOfAppend(Seqs.Filter(a, Verified), Seqs.Filter(b, Verified));
  }

  /** `Promise.all(req.files.map(processImage))`, run as an order-preserving map. */
  function Results(files: seq<ImageFile>, catalog: Catalog): (r: seq<Outcome>)
    ensures |r| == |files|
    ensures forall i :: 0 <= i < |files| ==> r[i] == ProcessImage(files[i], catalog)
  {
    Seqs.Map(files, (file: ImageFile) => ProcessImage(file, catalog))
  }

  /**
   * `uploadImages`: a 400 "No image files uploaded" for a missing or empty
   * file list, before any image is processed; otherwise the cards verified
   * on the images, in upload order.
   */
  function UploadImages(files: Option<seq<ImageFile>>, catalog: Catalog): (r: Response)
    ensures r.BadRequest? <==> files.None? || files.value == []
    ensures r.BadRequest? ==> r.message == "No image files uploaded"
    ensures r.Processed? ==> |r.processedCards| <= |files.value|
  {
    if files.None? || files.value == [] then BadRequest("No image files uploaded")
    else
      Processed("Images processed successfully", ProcessedCards(Results(files.value, catalog)))
  }

  /** Each uploaded image contributes its verified card, if any, independently of the others. */
  lemma UploadAppend(a: seq<ImageFile>, b: seq<ImageFile>, catalog: Catalog)
    requires a != [] && b != []
    ensures UploadImages(Some(a + b), catalog).processedCards
            == UploadImages(Some(a), catalog).processedCards + UploadImages(Some(b), catalog).processedCards
  {
    Seqs.MapAppend(a, b, (file: ImageFile) => ProcessImage(file, catalog));
    ProcessedCardsAppend(Results(a, catalog), Results(b, catalog));
  }
}
