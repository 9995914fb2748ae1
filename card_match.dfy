/**
 * Matching a cleaned OCR name against the card catalog: the search term, the
 * score of every catalog record, the ranking and the threshold of
 * `verifyCardName`.
 *
 * Every score of the source is a multiple of one half, so scores here are
 * integers counting half-points: a matching word is worth 2, the exact-name
 * bonus 20, the phrase bonus 10, each extra word of the record costs 1, and a
 * record is accepted at 4 or more.
 */
module CardMatch {
  import opened Wrappers
  import opened Text
  import Seqs
  import StableSort

  datatype CardImage = CardImage(imageId: int, imageUrl: string, imageUrlSmall: string)

  /** A record of the card catalog; the fields after `cardImages` are dropped by the projection. */
  datatype CardRecord = CardRecord(
    name: string, id: int, cardType: string, desc: string, race: string,
    archetype: Option<string>, cardImages: seq<CardImage>,
    atk: Option<int>, def: Option<int>, level: Option<int>, attribute: Option<string>)

  /** What `verifyCardName` returns for an accepted record. */
  datatype VerifiedCard = VerifiedCard(
    name: string, id: int, cardType: string, desc: string, race: string,
    archetype: Option<string>, cardImages: seq<CardImage>)

  /**
   * The catalog's answer to a search: a failed request (a network error, a
   * non-success status, or a body without a `data` list, all of which the
   * source turns into `null`) or the list of matching records.
   */
  datatype CatalogResponse = RequestFailed | Records(records: seq<CardRecord>)

  datatype Scored = Scored(card: CardRecord, score: int)

  /** The score, in half-points, a record needs to be accepted (2 points). */
  const Threshold := 4

  /** `ocrResult.split(" ")[0]`: the text the catalog is searched with. */
  function SearchTerm(ocr: string): (r: string)
    ensures r <= ocr && ' ' !in r
    ensures r == ocr || r + " " <= ocr
  {
    SplitHead(ocr, ' ');
    Split(ocr, ' ')[0]
  }

  function Project(card: CardRecord): VerifiedCard {
    VerifiedCard(card.name, card.id, card.cardType, card.desc, card.race, card.archetype, card.cardImages)
  }

  /** `ocrResult.toLowerCase().split(" ")`. */
  function OcrWords(ocr: string): (r: seq<string>)
    ensures |r| >= 1
  {
    Split(Lower(ocr), ' ')
  }

  /** `card.name.toLowerCase().replace(/-/g, " ").split(" ")`. */
  function CardWords(card: CardRecord): (r: seq<string>)
    ensures |r| >= 1
  {
    Split(ReplaceChar(Lower(card.name), '-', ' '), ' ')
  }

  /** The number of OCR words, counted with repetition, that occur among the record's words. */
  function MatchCount(ocrWords: seq<string>, cardWords: seq<string>): (n: nat)
    ensures n <= |ocrWords|
    ensures (forall i :: 0 <= i < |ocrWords| ==> ocrWords[i] in cardWords) ==> n == |ocrWords|
  {
    var matching := Seqs.Filter(ocrWords, (w: string) => w in cardWords);
    Seqs.FilterAll(ocrWords, (w: string) => w in cardWords);
    |matching|
  }

  predicate ExactMatch(ocr: string, card: CardRecord) {
    Lower(card.name) == Lower(ocr)
  }

  predicate PhraseMatch(ocr: string, card: CardRecord) {
    Contains(Lower(card.name), Join(OcrWords(ocr), ' '))
  }

  function ExtraWords(ocr: string, card: CardRecord): int {
    |CardWords(card)| - |OcrWords(ocr)|
  }

  /** The score of one record, in half-points. */
  function CardScore(ocr: string, card: CardRecord): (s: int)
    ensures s <= 2 * |OcrWords(ocr)| + 30
    ensures !ExactMatch(ocr, card) ==> s <= 2 * |OcrWords(ocr)| + 10
    ensures ExtraWords(ocr, card) <= 0 ==> s >= 0
  {
    2 * MatchCount(OcrWords(ocr), CardWords(card))
    + (if ExactMatch(ocr, card) then 20 else 0)
    + (if PhraseMatch(ocr, card) then 10 else 0)
    - (if ExtraWords(ocr, card) > 0 then ExtraWords(ocr, card) else 0)
  }

  /**
   * The score computed the way the source does, by updating a running
   * total: word matches, then the two bonuses, then the penalty.
   */
  method ScoreCard(ocr: string, card: CardRecord) returns (score: int)
    ensures score == CardScore(ocr, card)
  {
    var ocrLower := Lower(ocr);
    var ocrWords := Split(ocrLower, ' ');
    var cardName := Lower(card.name);
    var cardWords := Split(ReplaceChar(cardName, '-', ' '), ' ');
    score := 2 * MatchCount(ocrWords, cardWords);
    if cardName == ocrLower {
      score := score + 20;
    }
    if Contains(cardName, Join(ocrWords, ' ')) {
      score := score + 10;
    }
    var extraWords := |cardWords| - |ocrWords|;
    if extraWords > 0 {
      score := score - extraWords;
    }
  }

  /** The phrase the source searches for is the lowered OCR text itself. */
  lemma PhraseIsLoweredText(ocr: string)
    ensures Join(OcrWords(ocr), ' ') == Lower(ocr)
  {
    JoinSplit(Lower(ocr), ' ');
  }

  /** Exact equality implies containment, so an exact match earns both bonuses (+15 points). */
  lemma ExactEarnsBothBonuses(ocr: string, card: CardRecord)
    requires ExactMatch(ocr, card)
    ensures PhraseMatch(ocr, card)
    ensures CardScore(ocr, card)
            == 2 * MatchCount(OcrWords(ocr), CardWords(card)) + 30
               - (if ExtraWords(ocr, card) > 0 then ExtraWords(ocr, card) else 0)
  {
    PhraseIsLoweredText(ocr);
    assert Lower(card.name) <= Lower(card.name);
  }

  /**
   * Without a hyphen in the OCR text, an exact match splits into the same
   * words as the OCR text and scores 2 per word plus 30.
   */
  lemma ExactScore(ocr: string, card: CardRecord)
    requires ExactMatch(ocr, card) && '-' !in ocr
    ensures CardScore(ocr, card) == 2 * |OcrWords(ocr)| + 30
  {
    ExactEarnsBothBonuses(ocr, card);
    assert '-' !in Lower(ocr);
    assert CardWords(card) == OcrWords(ocr);
    var ws := OcrWords(ocr);
    assert forall i :: 0 <= i < |ws| ==> ws[i] in ws;
  }

  /** Every record with its score, in catalog order (`results.map(...)`). */
  function ScoreAll(ocr: string, records: seq<CardRecord>): (r: seq<Scored>)
    ensures |r| == |records|
    ensures forall i :: 0 <= i < |r| ==> r[i] == Scored(records[i], CardScore(ocr, records[i]))
  {
    seq(|records|, i requires 0 <= i < |records| => Scored(records[i], CardScore(ocr, records[i])))
  }

  /** The sort key of `(a, b) => b.score - a.score`: descending by score. */
  function ByScoreDesc(s: Scored): int {
    -s.score
  }

  /** `records[k]` has the maximal score, and every record before it scores strictly less. */
  predicate FirstBest(ocr: string, records: seq<CardRecord>, k: nat) {
    k < |records|
    && (forall j :: 0 <= j < |records| ==> CardScore(ocr, records[j]) <= CardScore(ocr, records[k]))
    && (forall j :: 0 <= j < k ==> CardScore(ocr, records[j]) < CardScore(ocr, records[k]))
  }

  /** The first record, in catalog order, whose score is maximal. */
  function BestIndex(ocr: string, records: seq<CardRecord>): (k: nat)
    requires records != []
    ensures FirstBest(ocr, records, k)
  {
    var scored := ScoreAll(ocr, records);
    var k := StableSort.FirstMinIndex(scored, ByScoreDesc);
    assert forall j :: 0 <= j < |records| ==> ByScoreDesc(scored[j]) == -CardScore(ocr, records[j]);
    k
  }

  /**
   * `verifyCardName` given the catalog's answer: the projection of the
   * first best-scoring record when it reaches the threshold; nothing when
   * the request failed, the list is empty, or no record scores 2 points.
   */
  function Verify(ocr: string, response: CatalogResponse): (r: Option<VerifiedCard>)
    ensures r.Some? ==> response.Records?
    ensures r.Some? ==> exists k: nat :: FirstBest(ocr, response.records, k)
                          && r.value == Project(response.records[k]) && CardScore(ocr, response.records[k]) >= Threshold
    ensures r.None? <==> (response.RequestFailed? || forall j :: 0 <= j < |response.records| ==> CardScore(ocr, response.records[j]) < Threshold)
  {
    match response
    case RequestFailed => None
    case Records(records) =>
      if records == [] then None
      else
        var k := BestIndex(ocr, records);
        if CardScore(ocr, records[k]) >= Threshold then Some(Project(records[k])) else None
  }

  /** `results.map(...)` into a fresh array: each record with its score, in catalog order. */
  method ScoreResults(ocr: string, records: seq<CardRecord>) returns (scoredResults: array<Scored>)
    requires records != []
    ensures fresh(scoredResults)
    ensures scoredResults[..] == ScoreAll(ocr, records)
  {
    scoredResults := new Scored[|records|](_ => Scored(records[0], 0));
    var i := 0;
    while i < scoredResults.Length
      invariant 0 <= i <= scoredResults.Length
      invariant forall j :: 0 <= j < i ==> scoredResults[j] == ScoreAll(ocr, records)[j]
    {
      var score := ScoreCard(ocr, records[i]);
      scoredResults[i] := Scored(records[i], score);
      i := i + 1;
    }
  }

  /**
   * `verifyCardName` as the source runs it: score every record into an
   * array, sort the array in place by descending score, and accept its
   * first entry when that scores at least 2 points.
   */
  method VerifyCardName(ocr: string, response: CatalogResponse) returns (r: Option<VerifiedCard>)
    ensures r == Verify(ocr, response)
  {
    if response.RequestFailed? || response.records == [] {
      return None;
    }
    var records := response.records;
    var scoredResults := ScoreResults(ocr, records);
    StableSort.SortInPlace(scoredResults, ByScoreDesc);
    ghost var b := BestIndex(ocr, records);
    assert scoredResults[0] == Scored(records[b], CardScore(ocr, records[b])) by {
      StableSort.SortHead(ScoreAll(ocr, records), ByScoreDesc);
    }
    var best := scoredResults[0];
    if best.score >= Threshold {
      r := Some(Project(best.card));
    } else {
      r := None;
    }
  }

  /**
   * When a record's name equals the OCR text (up to ASCII case), the first
   * such record is the one accepted, provided the text has no hyphen or the
   * name and the text have fewer than 20 words between them.
   */
  lemma ExactMatchWins(ocr: string, records: seq<CardRecord>, k: nat)
    requires k < |records| && ExactMatch(ocr, records[k])
    requires '-' !in ocr || (|CardWords(records[k])| + |OcrWords(ocr)| < 20 && |OcrWords(ocr)| < 10)
    requires forall j :: 0 <= j < k ==> !ExactMatch(ocr, records[j])
    ensures Verify(ocr, Records(records)) == Some(Project(records[k]))
  {
    ExactBeatsInexact(ocr, records[k]);
    var b := BestIndex(ocr, records);
    if ExactMatch(ocr, records[b]) {
      SameNameSameScore(ocr, records[b], records[k]);
      assert b == k;
    } else {
      assert false;
    }
  }

  /** An exact record under the bounds of `ExactMatchWins` outscores every record that is not exact. */
  lemma ExactBeatsInexact(ocr: string, card: CardRecord)
    requires ExactMatch(ocr, card)
    requires '-' !in ocr || (|CardWords(card)| + |OcrWords(ocr)| < 20 && |OcrWords(ocr)| < 10)
    ensures CardScore(ocr, card) > 2 * |OcrWords(ocr)| + 10
    ensures CardScore(ocr, card) >= Threshold
  {
    if '-' in ocr {
      ExactEarnsBothBonuses(ocr, card);
    } else {
      ExactScore(ocr, card);
    }
  }

  /** The score sees a record only through its lowered name. */
  lemma SameNameSameScore(ocr: string, c: CardRecord, d: CardRecord)
    requires Lower(c.name) == Lower(d.name)
    ensures CardScore(ocr, c) == CardScore(ocr, d)
  {
    assert CardWords(c) == CardWords(d);
  }
}
