/**
 * `processImage` of the OCR utilities: from the text detected on one card
 * image to the outcome record of that image.
 *
 * The text detection service and the card catalog are not modelled: an
 * image carries what detection produced for it, and the catalog is a
 * function from search term to response.
 */
module OcrPipeline {
  import opened Wrappers
  import opened Text
  import opened CardName
  import opened CardMatch

  /** What text detection produced for an image: an error, no annotations, or the full text block. */
  datatype Detection = DetectionFailed(message: string) | NoAnnotations | Annotated(description: string)

  /** An uploaded image: its original file name and the result of running detection on it. */
  datatype ImageFile = ImageFile(originalName: string, detection: Detection)

  /** The per-image result object; absent fields are `None`. */
  datatype Outcome = Outcome(
    filename: string, success: bool, ocrResult: Option<string>,
    verifiedCard: Option<VerifiedCard>, error: Option<string>)

  /** The catalog, queried with a search term. */
  type Catalog = string -> CatalogResponse

  /** The cleaned title read off a detected text block. */
  function OcrName(description: string): (r: string)
    ensures NoEdgeSpace(r) && NoDoubleSpace(r)
  {
    CleanCardName(FindCardName(Lines(description)))
  }

  /**
   * `processImage`: "No text detected" without annotations; otherwise the
   * cleaned title and the catalog's verdict on it, successful exactly when
   * a card was verified; a failure of detection becomes an error outcome
   * whose file name falls back to "unknown" when the name is empty.
   */
  function ProcessImage(file: ImageFile, catalog: Catalog): (r: Outcome)
    ensures r.success <==> r.verifiedCard.Some?
    ensures r.success ==> file.detection.Annotated?
    ensures r.error.Some? <==> !file.detection.Annotated?
    ensures file.detection.NoAnnotations? ==> r.error == Some("No text detected")
    ensures file.detection.DetectionFailed? && file.originalName == "" ==> r.filename == "unknown"
    ensures !(file.detection.DetectionFailed? && file.originalName == "") ==> r.filename == file.originalName
    ensures file.detection.DetectionFailed? ==> r.error == Some(file.detection.message)
    ensures file.detection.Annotated? ==> r.ocrResult == Some(OcrName(file.detection.description))
    ensures file.detection.Annotated? ==>
              r.verifiedCard == Verify(r.ocrResult.value, catalog(SearchTerm(r.ocrResult.value)))
    ensures r.success ==> exists k: nat :: var response := catalog(SearchTerm(r.ocrResult.value));
              response.Records? && FirstBest(r.ocrResult.value, response.records, k)
              && CardScore(r.ocrResult.value, response.records[k]) >= Threshold
              && r.verifiedCard.value == Project(response.records[k])
  {
    match file.detection
    case DetectionFailed(message) =>
      Outcome(if file.originalName == "" then "unknown" else file.originalName, false, None, None, Some(message))
    case NoAnnotations =>
      Outcome(file.originalName, false, None, None, Some("No text detected"))
    case Annotated(description) =>
      var cleanedName := OcrName(description);
      var verifiedCard := Verify(cleanedName, catalog(SearchTerm(cleanedName)));
      Outcome(file.originalName, verifiedCard.Some?, Some(cleanedName), verifiedCard, None)
  }

  /** When no line of the text qualifies as a title, the catalog is searched with the empty name. */
  lemma NoTitleLine(file: ImageFile, catalog: Catalog)
    requires file.detection.Annotated?
    requires forall line :: line in Lines(file.detection.description) ==> !IsTitleLine(line)
    ensures ProcessImage(file, catalog).ocrResult == Some("")
  {
    assert OcrName(file.detection.description) == "" by {
      var lines := Lines(file.detection.description);
      assert FindCardName(lines) == None by {
        assert forall j :: 0 <= j < |lines| ==> lines[j] in lines;
      }
    }
  }

  /** `Promise.all(files.map(processImage))`, as an order-preserving map. */
  function ProcessAll(files: seq<ImageFile>, catalog: Catalog): (r: seq<Outcome>)
    ensures |r| == |files|
    ensures forall i :: 0 <= i < |files| ==> r[i] == ProcessImage(files[i], catalog)
  {
    seq(|files|, i requires 0 <= i < |files| => ProcessImage(files[i], catalog))
  }

  /**
   * A detection failure on one image becomes that image's error outcome and
   * leaves the outcomes of every other image as they were.
   */
  lemma FailureIsolated(files: seq<ImageFile>, i: nat, message: string, catalog: Catalog)
    requires i < |files|
    ensures var failed := files[i].(detection := DetectionFailed(message));
            var r := ProcessAll(files[i := failed], catalog);
            !r[i].success && r[i].error == Some(message)
            && r == ProcessAll(files, catalog)[i := ProcessImage(failed, catalog)]
  {
  }
}
