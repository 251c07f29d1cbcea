/** The verdict part of blur detection: OCR words per quadrant, an LLM look at empty
    quadrants, and the whole page as a fallback. */
module BlurDetection {
  import opened Common

  const BLUR_CONFIDENCE_FLOOR := 70.0
  const BLUR_MIN_WORD_COUNT := 5
  const BLUR_LOW_CONFIDENCE_MAX_PERCENT := 30.0
  const BLUR_QUADRANT_MIN_AVG_CONFIDENCE := 85.0
  const BLUR_TEXT_DENSE_MIN_WORDS := 20

  /** A recognised word: its confidence and where its box begins, as fractions of the image. */
  datatype Word = Word(confidence: real, left: real, top: real)

  datatype Quadrant = TopLeft | TopRight | BottomLeft | BottomRight

  const QUADRANTS := [TopLeft, TopRight, BottomLeft, BottomRight]

  datatype Limits = Limits(floor: real, maxLowPercent: real, minAverage: real)

  const LIMITS := Limits(BLUR_CONFIDENCE_FLOOR, BLUR_LOW_CONFIDENCE_MAX_PERCENT, BLUR_QUADRANT_MIN_AVG_CONFIDENCE)

  function QuadrantOf(w: Word): Quadrant {
    if w.top < 0.5 then (if w.left < 0.5 then TopLeft else TopRight)
    else (if w.left < 0.5 then BottomLeft else BottomRight)
  }

  function Sum(words: seq<Word>): real {
    if words == [] then 0.0 else words[0].confidence + Sum(words[1..])
  }

  function LowCount(words: seq<Word>, floor: real): (n: nat)
    ensures n <= |words|
  {
    if words == [] then 0
    else (if words[0].confidence < floor then 1 else 0) + LowCount(words[1..], floor)
  }

  function Average(words: seq<Word>): real
    requires words != []
  {
    Sum(words) / |words| as real
  }

  function LowPercent(words: seq<Word>, floor: real): real
    requires words != []
  {
    LowCount(words, floor) as real / |words| as real * 100.0
  }

  /** Too low an average, or too large a share of low-confidence words. Quadrants and pages alike. */
  predicate IsBlurred(words: seq<Word>, limits: Limits)
    requires words != []
  {
    Average(words) < limits.minAverage || LowPercent(words, limits.floor) > limits.maxLowPercent
  }

  function InQuadrant(words: seq<Word>, q: Quadrant): seq<Word> {
    if words == [] then []
    else if QuadrantOf(words[0]) == q then [words[0]] + InQuadrant(words[1..], q)
    else InQuadrant(words[1..], q)
  }

  lemma {:induction false} InQuadrantSnoc(words: seq<Word>, w: Word, q: Quadrant)
    ensures InQuadrant(words + [w], q) == if QuadrantOf(w) == q then InQuadrant(words, q) + [w] else InQuadrant(words, q)
  {
    if words == [] {
      assert words + [w] == [w];
    } else {
      InQuadrantSnoc(words[1..], w, q);
      assert (words + [w])[1..] == words[1..] + [w];
    }
  }

  // ---- Where a word lies, in its own coordinates ----

  predicate AtTopLeft(w: Word) { w.left < 0.5 && w.top < 0.5 }
  predicate AtTopRight(w: Word) { w.left >= 0.5 && w.top < 0.5 }
  predicate AtBottomLeft(w: Word) { w.left < 0.5 && w.top >= 0.5 }
  predicate AtBottomRight(w: Word) { w.left >= 0.5 && w.top >= 0.5 }

  lemma {:induction false} InQuadrantIs(words: seq<Word>, q: Quadrant, keep: Word -> bool)
    requires forall w :: keep(w) <==> QuadrantOf(w) == q
    ensures InQuadrant(words, q) == Filter(words, keep)
  {
    if words != [] {
      InQuadrantIs(words[1..], q, keep);
    }
  }

  lemma QuadrantsAre(words: seq<Word>)
    ensures InQuadrant(words, TopLeft) == Filter(words, AtTopLeft)
    ensures InQuadrant(words, TopRight) == Filter(words, AtTopRight)
    ensures InQuadrant(words, BottomLeft) == Filter(words, AtBottomLeft)
    ensures InQuadrant(words, BottomRight) == Filter(words, AtBottomRight)
  {
    InQuadrantIs(words, TopLeft, AtTopLeft);
    InQuadrantIs(words, TopRight, AtTopRight);
    InQuadrantIs(words, BottomLeft, AtBottomLeft);
    InQuadrantIs(words, BottomRight, AtBottomRight);
  }

  lemma SidesAre(words: seq<Word>)
    ensures forall w :: w in words ==> (w in Filter(words, AtTopLeft) <==> w.left < 0.5 && w.top < 0.5)
    ensures forall w :: w in words ==> (w in Filter(words, AtTopRight) <==> w.left >= 0.5 && w.top < 0.5)
    ensures forall w :: w in words ==> (w in Filter(words, AtBottomLeft) <==> w.left < 0.5 && w.top >= 0.5)
    ensures forall w :: w in words ==> (w in Filter(words, AtBottomRight) <==> w.left >= 0.5 && w.top >= 0.5)
  {
    forall w: Word, keep: Word -> bool ensures w in Filter(words, keep) <==> w in words && keep(w) {
      FilterContains(words, keep, w);
    }
  }

  /** Each quadrant gets the words whose box begins on its side of both middles, in order. */
  method PartitionWords(words: seq<Word>) returns (quadrants: map<Quadrant, seq<Word>>)
    ensures forall q: Quadrant :: q in quadrants && quadrants[q] == InQuadrant(words, q)
    ensures quadrants[TopLeft] == Filter(words, AtTopLeft)
    ensures quadrants[TopRight] == Filter(words, AtTopRight)
    ensures quadrants[BottomLeft] == Filter(words, AtBottomLeft)
    ensures quadrants[BottomRight] == Filter(words, AtBottomRight)
    ensures forall w :: w in words ==> (w in quadrants[TopLeft] <==> w.left < 0.5 && w.top < 0.5)
    ensures forall w :: w in words ==> (w in quadrants[TopRight] <==> w.left >= 0.5 && w.top < 0.5)
    ensures forall w :: w in words ==> (w in quadrants[BottomLeft] <==> w.left < 0.5 && w.top >= 0.5)
    ensures forall w :: w in words ==> (w in quadrants[BottomRight] <==> w.left >= 0.5 && w.top >= 0.5)
  {
    quadrants := map[TopLeft := [], TopRight := [], BottomLeft := [], BottomRight := []];
    forall q: Quadrant ensures q in quadrants && quadrants[q] == InQuadrant(words[..0], q) {
      match q case TopLeft => case TopRight => case BottomLeft => case BottomRight =>
    }
    for i := 0 to |words|
      invariant forall q: Quadrant :: q in quadrants && quadrants[q] == InQuadrant(words[..i], q)
    {
      var key := QuadrantOf(words[i]);
      forall q: Quadrant {
        InQuadrantSnoc(words[..i], words[i], q);
      }
      assert words[..i + 1] == words[..i] + [words[i]];
      quadrants := quadrants[key := quadrants[key] + [words[i]]];
    }
    assert words[..|words|] == words;
    QuadrantsAre(words);
    SidesAre(words);
  }

  // ---- What is summed and counted ----

  lemma {:induction false} SumAdds(a: seq<Word>, b: seq<Word>)
    ensures Sum(a + b) == Sum(a) + Sum(b)
  {
    if a == [] {
      assert a + b == b;
    } else {
      assert (a + b)[1..] == a[1..] + b;
      SumAdds(a[1..], b);
    }
  }

  lemma SumOfOne(w: Word)
    ensures Sum([w]) == w.confidence
  {
    assert [w][1..] == [];
  }

  function Below(floor: real): Word -> bool { (w: Word) => w.confidence < floor }

  lemma {:induction false} LowCountIs(words: seq<Word>, floor: real)
    ensures LowCount(words, floor) == |Filter(words, Below(floor))|
  {
    if words != [] {
      LowCountIs(words[1..], floor);
    }
  }

  // ---- Partitioning conserves the words ----

  ghost predicate Conserved(words: seq<Word>, a: seq<Word>, b: seq<Word>, c: seq<Word>, d: seq<Word>, floor: real) {
    && multiset(words) == multiset(a) + multiset(b) + multiset(c) + multiset(d)
    && |words| == |a| + |b| + |c| + |d|
    && Sum(words) == Sum(a) + Sum(b) + Sum(c) + Sum(d)
    && LowCount(words, floor) == LowCount(a, floor) + LowCount(b, floor) + LowCount(c, floor) + LowCount(d, floor)
  }

  /** Words, confidence and low-confidence words are all split among the quadrants. */
  lemma {:induction false} QuadrantsConserve(words: seq<Word>, floor: real)
    ensures Conserved(words, InQuadrant(words, TopLeft), InQuadrant(words, TopRight),
                      InQuadrant(words, BottomLeft), InQuadrant(words, BottomRight), floor)
  {
    if words != [] {
      QuadrantsConserve(words[1..], floor);
      OneMoreConserved(words[0], words[1..], InQuadrant(words[1..], TopLeft), InQuadrant(words[1..], TopRight),
                       InQuadrant(words[1..], BottomLeft), InQuadrant(words[1..], BottomRight), floor);
      assert words == [words[0]] + words[1..];
      match QuadrantOf(words[0])
      case TopLeft => assert InQuadrant(words, TopLeft) == [words[0]] + InQuadrant(words[1..], TopLeft);
      case TopRight => assert InQuadrant(words, TopRight) == [words[0]] + InQuadrant(words[1..], TopRight);
      case BottomLeft => assert InQuadrant(words, BottomLeft) == [words[0]] + InQuadrant(words[1..], BottomLeft);
      case BottomRight => assert InQuadrant(words, BottomRight) == [words[0]] + InQuadrant(words[1..], BottomRight);
    }
  }

  lemma HeadWord(w: Word, rest: seq<Word>, floor: real)
    ensures multiset([w] + rest) == multiset{w} + multiset(rest)
    ensures Sum([w] + rest) == w.confidence + Sum(rest)
    ensures LowCount([w] + rest, floor) == (if w.confidence < floor then 1 else 0) + LowCount(rest, floor)
  {
    assert ([w] + rest)[1..] == rest;
  }

  /** One more word in front of the page and of one of its quadrants. */
  lemma OneMoreConserved(w: Word, rest: seq<Word>, a: seq<Word>, b: seq<Word>, c: seq<Word>, d: seq<Word>, floor: real)
    requires Conserved(rest, a, b, c, d, floor)
    ensures Conserved([w] + rest, [w] + a, b, c, d, floor) && Conserved([w] + rest, a, [w] + b, c, d, floor)
    ensures Conserved([w] + rest, a, b, [w] + c, d, floor) && Conserved([w] + rest, a, b, c, [w] + d, floor)
  {
    HeadWord(w, rest, floor);
    HeadWord(w, a, floor);
    HeadWord(w, b, floor);
    HeadWord(w, c, floor);
    HeadWord(w, d, floor);
  }

  // ---- Evaluation ----

  datatype Stats = Stats(wordCount: nat, average: real, lowPercent: real, skipped: bool, textSeen: bool)

  predicate Populated(words: seq<Word>, q: Quadrant, minWords: nat) { |InQuadrant(words, q)| >= minWords }

  predicate Fails(words: seq<Word>, q: Quadrant, limits: Limits, minWords: nat)
    requires minWords > 0
  {
    Populated(words, q, minWords) && IsBlurred(InQuadrant(words, q), limits)
  }

  /** Stops at the first quadrant that fails; the ones after it get no statistics. */
  method EvaluateQuadrants(ghost words: seq<Word>, quadrants: map<Quadrant, seq<Word>>, limits: Limits, minWords: nat)
    returns (failed: seq<Quadrant>, stats: map<Quadrant, Stats>)
    requires forall q: Quadrant :: q in quadrants && quadrants[q] == InQuadrant(words, q)
    requires minWords > 0
    ensures failed == [] <==> forall q: Quadrant :: !Fails(words, q, limits, minWords)
    ensures forall q :: q in failed ==> Fails(words, q, limits, minWords)
    ensures failed == [] ==>
      forall q: Quadrant :: q in stats && stats[q].skipped == !Populated(words, q, minWords)
  {
    failed, stats := [], map[];
    for i := 0 to |QUADRANTS|
      invariant failed == []
      invariant forall k :: 0 <= k < i ==> !Fails(words, QUADRANTS[k], limits, minWords)
      invariant forall k :: 0 <= k < i ==>
        QUADRANTS[k] in stats && stats[QUADRANTS[k]].skipped == !Populated(words, QUADRANTS[k], minWords)
    {
      var name := QUADRANTS[i];
      var found := quadrants[name];
      if |found| >= minWords {
        stats := stats[name := Stats(|found|, Average(found), LowPercent(found, limits.floor), false, false)];
        if IsBlurred(found, limits) {
          assert Fails(words, name, limits, minWords);
          failed := [name];
          break;
        }
      } else {
        stats := stats[name := Stats(|found|, 0.0, 0.0, true, false)];
      }
    }
    if failed == [] {
      forall q: Quadrant
        ensures !Fails(words, q, limits, minWords) && q in stats && stats[q].skipped == !Populated(words, q, minWords)
      {
        var k := Place(q);
      }
    }
  }

  lemma Place(q: Quadrant) returns (k: nat)
    ensures k < |QUADRANTS| && QUADRANTS[k] == q
  {
    k := match q case TopLeft => 0 case TopRight => 1 case BottomLeft => 2 case BottomRight => 3;
  }

  datatype BlurResult = BlurResult(isBlurry: bool, isNotDocument: bool, llmChecked: bool, usedPage: bool)

  predicate SomeFails(words: seq<Word>) {
    exists q: Quadrant :: Fails(words, q, LIMITS, BLUR_MIN_WORD_COUNT)
  }

  predicate AllSparse(words: seq<Word>) {
    forall q: Quadrant :: !Populated(words, q, BLUR_MIN_WORD_COUNT)
  }

  /** The quadrants shown to the LLM. */
  predicate AsksAbout(words: seq<Word>, q: Quadrant) {
    !SomeFails(words) && InQuadrant(words, q) == [] && |words| >= BLUR_TEXT_DENSE_MIN_WORDS
  }

  /** Shows each empty quadrant to the LLM and notes its answer in the statistics. */
  method CheckEmptyQuadrants(words: seq<Word>, quadrants: map<Quadrant, seq<Word>>, llm: Quadrant -> bool,
                             stats: map<Quadrant, Stats>)
    returns (failed: seq<Quadrant>, asked: bool, stats': map<Quadrant, Stats>)
    requires forall q: Quadrant :: q in quadrants && quadrants[q] == InQuadrant(words, q)
    requires forall q: Quadrant :: q in stats
    requires !SomeFails(words)
    ensures asked <==> exists q: Quadrant :: AsksAbout(words, q)
    ensures failed != [] <==> exists q: Quadrant :: AsksAbout(words, q) && llm(q)
    ensures forall q: Quadrant :: q in stats' && stats'[q].skipped == (stats[q].skipped && !AsksAbout(words, q))
  {
    failed, asked, stats' := [], false, stats;
    for i := 0 to |QUADRANTS|
      invariant asked <==> exists k :: 0 <= k < i && AsksAbout(words, QUADRANTS[k])
      invariant failed != [] <==> exists k :: 0 <= k < i && AsksAbout(words, QUADRANTS[k]) && llm(QUADRANTS[k])
      invariant forall q: Quadrant :: q in stats'
      invariant forall k :: 0 <= k < |QUADRANTS| ==>
        stats'[QUADRANTS[k]].skipped == (stats[QUADRANTS[k]].skipped && !(k < i && AsksAbout(words, QUADRANTS[k])))
    {
      var name := QUADRANTS[i];
      if |quadrants[name]| == 0 && |words| >= BLUR_TEXT_DENSE_MIN_WORDS {
        assert AsksAbout(words, name);
        asked := true;
        stats' := stats'[name := Stats(0, 0.0, 0.0, false, llm(name))];
        if llm(name) {
          failed := failed + [name];
        }
      }
    }
    forall q: Quadrant
      ensures exists k :: 0 <= k < |QUADRANTS| && QUADRANTS[k] == q
      ensures stats'[q].skipped == (stats[q].skipped && !AsksAbout(words, q))
    {
      var k := Place(q);
    }
  }

  // ---- The verdict in the words' own coordinates and the limits' numbers ----

  /** The words in the four quarters of the page, each list in order. */
  function QuadrantLists(words: seq<Word>): seq<seq<Word>> {
    [Filter(words, AtTopLeft), Filter(words, AtTopRight), Filter(words, AtBottomLeft), Filter(words, AtBottomRight)]
  }

  /** An average below 85, or more than 30 in a hundred words with a confidence below 70. */
  predicate TooWeak(words: seq<Word>) {
    Sum(words) < 85.0 * |words| as real || LowCount(words, 70.0) as real * 100.0 > 30.0 * |words| as real
  }

  predicate QuarterFails(words: seq<Word>, k: nat)
    requires k < 4
  {
    |QuadrantLists(words)[k]| >= 5 && TooWeak(QuadrantLists(words)[k])
  }

  predicate NoTextIn(words: seq<Word>, llm: Quadrant -> bool) {
    || (Filter(words, AtTopLeft) == [] && llm(TopLeft)) || (Filter(words, AtTopRight) == [] && llm(TopRight))
    || (Filter(words, AtBottomLeft) == [] && llm(BottomLeft)) || (Filter(words, AtBottomRight) == [] && llm(BottomRight))
  }

  /** A quarter with five words or more is too weak; or none is, the page has twenty words or
      more, and the model says yes to an empty quarter; or no quarter has five words and the
      page as a whole is too weak. A page of fewer than five words is never blurry. */
  ghost predicate PageIsBlurry(words: seq<Word>, llm: Quadrant -> bool) {
    |words| >= 5 &&
    (|| (exists k :: 0 <= k < 4 && QuarterFails(words, k))
     || ((forall k :: 0 <= k < 4 ==> !QuarterFails(words, k)) && |words| >= 20 && NoTextIn(words, llm))
     || ((forall k :: 0 <= k < 4 ==> |QuadrantLists(words)[k]| < 5) && TooWeak(words)))
  }

  lemma WeakMeans(words: seq<Word>)
    requires words != []
    ensures IsBlurred(words, LIMITS) <==> TooWeak(words)
  {
    PassesIff(words, LIMITS);
  }

  lemma FailsMeans(words: seq<Word>, q: Quadrant)
    ensures Fails(words, q, LIMITS, BLUR_MIN_WORD_COUNT) <==> |InQuadrant(words, q)| >= 5 && TooWeak(InQuadrant(words, q))
  {
    if InQuadrant(words, q) != [] {
      WeakMeans(InQuadrant(words, q));
    }
  }

  lemma ListAt(words: seq<Word>, k: nat)
    requires k < 4
    ensures QuadrantLists(words)[k] == InQuadrant(words, QUADRANTS[k])
    ensures QuarterFails(words, k) <==> Fails(words, QUADRANTS[k], LIMITS, BLUR_MIN_WORD_COUNT)
  {
    QuadrantsAre(words);
    FailsMeans(words, QUADRANTS[k]);
  }

  lemma SomeFailsMeans(words: seq<Word>)
    ensures SomeFails(words) <==> exists k :: 0 <= k < 4 && QuarterFails(words, k)
  {
    if q: Quadrant :| Fails(words, q, LIMITS, BLUR_MIN_WORD_COUNT) {
      var k := Place(q);
      ListAt(words, k);
    }
    if k :| 0 <= k < 4 && QuarterFails(words, k) {
      ListAt(words, k);
    }
  }

  lemma AllSparseMeans(words: seq<Word>)
    ensures AllSparse(words) <==> forall k :: 0 <= k < 4 ==> |QuadrantLists(words)[k]| < 5
  {
    forall k | 0 <= k < 4 ensures |QuadrantLists(words)[k]| < 5 <==> !Populated(words, QUADRANTS[k], BLUR_MIN_WORD_COUNT) {
      ListAt(words, k);
    }
    if forall k :: 0 <= k < 4 ==> |QuadrantLists(words)[k]| < 5 {
      forall q: Quadrant ensures !Populated(words, q, BLUR_MIN_WORD_COUNT) {
        var k := Place(q);
      }
    }
  }

  lemma AskedMeans(words: seq<Word>, llm: Quadrant -> bool)
    requires !SomeFails(words)
    ensures (exists q: Quadrant :: AsksAbout(words, q) && llm(q)) <==> |words| >= 20 && NoTextIn(words, llm)
  {
    QuadrantsAre(words);
    forall q: Quadrant | AsksAbout(words, q) && llm(q) ensures |words| >= 20 && NoTextIn(words, llm) {
      match q case TopLeft => case TopRight => case BottomLeft => case BottomRight =>
    }
    if |words| >= 20 && NoTextIn(words, llm) {
      assert (AsksAbout(words, TopLeft) && llm(TopLeft)) || (AsksAbout(words, TopRight) && llm(TopRight))
          || (AsksAbout(words, BottomLeft) && llm(BottomLeft)) || (AsksAbout(words, BottomRight) && llm(BottomRight));
    }
  }

  lemma PageIsBlurryMeans(words: seq<Word>, llm: Quadrant -> bool)
    ensures PageIsBlurry(words, llm) <==>
      && |words| >= BLUR_MIN_WORD_COUNT
      && (|| SomeFails(words)
          || (exists q: Quadrant :: AsksAbout(words, q) && llm(q))
          || (AllSparse(words) && IsBlurred(words, LIMITS)))
  {
    SomeFailsMeans(words);
    AllSparseMeans(words);
    if words != [] {
      WeakMeans(words);
    }
    if !SomeFails(words) {
      AskedMeans(words, llm);
    }
  }

  /** A weak quarter makes the page blurry, whichever it is. */
  lemma WeakQuarterBlurs(words: seq<Word>, llm: Quadrant -> bool, k: nat)
    requires k < 4 && |QuadrantLists(words)[k]| >= 5
    requires Sum(QuadrantLists(words)[k]) < 85.0 * |QuadrantLists(words)[k]| as real
    ensures PageIsBlurry(words, llm)
  {
    assert QuarterFails(words, k);
  }

  /** llm(q) is the model's answer for an empty quadrant, false when the call fails. */
  method DetectBlur(words: seq<Word>, llm: Quadrant -> bool) returns (result: BlurResult)
    ensures result.isNotDocument <==> |words| < BLUR_MIN_WORD_COUNT
    ensures result.isBlurry <==>
      && |words| >= BLUR_MIN_WORD_COUNT
      && (|| SomeFails(words)
          || (exists q: Quadrant :: AsksAbout(words, q) && llm(q))
          || (AllSparse(words) && IsBlurred(words, LIMITS)))
    ensures result.llmChecked <==> exists q: Quadrant :: AsksAbout(words, q)
    ensures result.usedPage <==> |words| >= BLUR_MIN_WORD_COUNT && AllSparse(words)
    ensures result.isNotDocument <==> |words| < 5
    ensures result.isBlurry <==> PageIsBlurry(words, llm)
  {
    PageIsBlurryMeans(words, llm);
    if |words| < BLUR_MIN_WORD_COUNT {
      return BlurResult(false, true, false, false);
    }
    var quadrants := PartitionWords(words);
    var failed, stats := EvaluateQuadrants(words, quadrants, LIMITS, BLUR_MIN_WORD_COUNT);
    var llmChecked := false;
    if AllSparse(words) {
      FallbackIsForShortPages(words);
    }
    if failed == [] {
      assert !SomeFails(words);
      failed, llmChecked, stats := CheckEmptyQuadrants(words, quadrants, llm, stats);
    } else {
      assert failed[0] in failed;
      assert SomeFails(words);
    }
    var allSkipped := forall q :: q in stats ==> stats[q].skipped;
    if failed != [] {
      return BlurResult(true, false, llmChecked, false);
    } else if allSkipped {
      return BlurResult(IsBlurred(words, LIMITS), false, llmChecked, true);
    } else {
      return BlurResult(false, false, llmChecked, false);
    }
  }

  // ---- Consequences ----

  /** The page fallback applies only to 5 to 16 words, so never to a page shown to the LLM. */
  lemma FallbackIsForShortPages(words: seq<Word>)
    requires |words| >= BLUR_MIN_WORD_COUNT && AllSparse(words)
    ensures 5 <= |words| <= 16
    ensures !SomeFails(words)
    ensures forall q: Quadrant :: !AsksAbout(words, q)
  {
    QuadrantsConserve(words, 0.0);
    assert forall q: Quadrant :: !Populated(words, q, BLUR_MIN_WORD_COUNT);
    assert !Populated(words, TopLeft, 5) && !Populated(words, TopRight, 5);
    assert !Populated(words, BottomLeft, 5) && !Populated(words, BottomRight, 5);
  }

  /** In exact terms: the sum stays above the limit times the number of words, and the low
      words stay below theirs. */
  predicate WithinLimits(sum: real, low: real, n: real, limits: Limits) {
    sum >= limits.minAverage * n && low * 100.0 <= limits.maxLowPercent * n
  }

  lemma PassesIff(words: seq<Word>, limits: Limits)
    requires words != []
    ensures !IsBlurred(words, limits) <==>
      WithinLimits(Sum(words), LowCount(words, limits.floor) as real, |words| as real, limits)
  {
    RatiosWithin(Sum(words), LowCount(words, limits.floor) as real, |words| as real, limits);
  }

  lemma RatiosWithin(sum: real, low: real, n: real, limits: Limits)
    requires n > 0.0
    ensures !(sum / n < limits.minAverage || low / n * 100.0 > limits.maxLowPercent) <==> WithinLimits(sum, low, n, limits)
  {
    QuotientBelow(sum, n, limits.minAverage);
    PercentAbove(low, n, limits.maxLowPercent);
  }

  lemma QuotientBelow(x: real, n: real, m: real)
    requires n > 0.0
    ensures x / n < m <==> x < m * n
  {
    assert x == (x / n) * n;
    ScaleStrict(x / n, m, n);
  }

  lemma PercentAbove(x: real, n: real, m: real)
    requires n > 0.0
    ensures x / n * 100.0 > m <==> x * 100.0 > m * n
  {
    var r := x / n;
    assert x == r * n;
    assert r * 100.0 * n == x * 100.0;
    ScaleStrict(m, r * 100.0, n);
  }

  lemma ScaleStrict(x: real, y: real, n: real)
    requires n > 0.0
    ensures x < y <==> x * n < y * n
  {
    assert (y - x) * n == y * n - x * n;
    PositiveTimes(y - x, n);
    PositiveTimes(x - y, n);
  }

  lemma PositiveTimes(x: real, n: real)
    requires n > 0.0
    ensures x > 0.0 ==> x * n > 0.0
    ensures x >= 0.0 ==> x * n >= 0.0
  {
  }

  predicate QuadrantWithin(words: seq<Word>, q: Quadrant, limits: Limits) {
    var found := InQuadrant(words, q);
    WithinLimits(Sum(found), LowCount(found, limits.floor) as real, |found| as real, limits)
  }

  lemma PassingQuadrantWithin(words: seq<Word>, q: Quadrant, limits: Limits)
    requires InQuadrant(words, q) != [] ==> !IsBlurred(InQuadrant(words, q), limits)
    ensures QuadrantWithin(words, q, limits)
  {
    if InQuadrant(words, q) != [] {
      PassesIff(InQuadrant(words, q), limits);
    }
  }

  /** Quadrants that all pass leave no page-level failure: when every quadrant with words has
      enough of them and passes, so does the page. */
  lemma PassingQuadrantsPassThePage(words: seq<Word>, limits: Limits, minWords: nat)
    requires words != [] && minWords > 0
    requires forall q: Quadrant :: InQuadrant(words, q) != [] ==>
      Populated(words, q, minWords) && !Fails(words, q, limits, minWords)
    ensures !IsBlurred(words, limits)
  {
    PassingQuadrantWithin(words, TopLeft, limits);
    PassingQuadrantWithin(words, TopRight, limits);
    PassingQuadrantWithin(words, BottomLeft, limits);
    PassingQuadrantWithin(words, BottomRight, limits);
    PageWithin(words, limits);
    PassesIff(words, limits);
  }

  predicate Within(words: seq<Word>, limits: Limits) {
    WithinLimits(Sum(words), LowCount(words, limits.floor) as real, |words| as real, limits)
  }

  lemma PageWithin(words: seq<Word>, limits: Limits)
    requires QuadrantWithin(words, TopLeft, limits) && QuadrantWithin(words, TopRight, limits)
    requires QuadrantWithin(words, BottomLeft, limits) && QuadrantWithin(words, BottomRight, limits)
    ensures Within(words, limits)
  {
    QuadrantsConserve(words, limits.floor);
    FourWithin(words, InQuadrant(words, TopLeft), InQuadrant(words, TopRight),
               InQuadrant(words, BottomLeft), InQuadrant(words, BottomRight), limits);
  }

  lemma FourWithin(words: seq<Word>, a: seq<Word>, b: seq<Word>, c: seq<Word>, d: seq<Word>, limits: Limits)
    requires Conserved(words, a, b, c, d, limits.floor)
    requires Within(a, limits) && Within(b, limits) && Within(c, limits) && Within(d, limits)
    ensures Within(words, limits)
  {
    var l, m := LowCount(a, limits.floor) as real, LowCount(b, limits.floor) as real;
    var n, o := LowCount(c, limits.floor) as real, LowCount(d, limits.floor) as real;
    FourAdd(Sum(a), l, |a| as real, Sum(b), m, |b| as real, Sum(c), n, |c| as real, Sum(d), o, |d| as real,
            Sum(words), LowCount(words, limits.floor) as real, |words| as real, limits);
  }

  lemma FourAdd(s: real, l: real, n: real, s': real, l': real, n': real,
                t: real, k: real, m: real, t': real, k': real, m': real,
                sum: real, low: real, count: real, limits: Limits)
    requires WithinLimits(s, l, n, limits) && WithinLimits(s', l', n', limits)
    requires WithinLimits(t, k, m, limits) && WithinLimits(t', k', m', limits)
    requires sum == s + s' + t + t' && low == l + l' + k + k' && count == n + n' + m + m'
    ensures WithinLimits(sum, low, count, limits)
  {
    WithinAdd(s, l, n, s', l', n', limits);
    WithinAdd(t, k, m, t', k', m', limits);
    WithinAdd(s + s', l + l', n + n', t + t', k + k', m + m', limits);
    assert count == (n + n') + (m + m');
  }

  lemma WithinAdd(sum: real, low: real, n: real, sum': real, low': real, n': real, limits: Limits)
    requires WithinLimits(sum, low, n, limits) && WithinLimits(sum', low', n', limits)
    ensures WithinLimits(sum + sum', low + low', n + n', limits)
  {
    assert limits.minAverage * (n + n') == limits.minAverage * n + limits.minAverage * n';
    assert limits.maxLowPercent * (n + n') == limits.maxLowPercent * n + limits.maxLowPercent * n';
  }
}
