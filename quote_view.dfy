/** The quote view (CoreQuote.java): the quote's sentences, resolved from its
    inclusive sentence-index range, and its speaker fields. */
module QuoteView {
  import opened Wrappers
  import opened JavaInt
  import opened CoreMaps
  import opened SentenceView

  /** The ways building a quote view fails: unboxing a missing sentence index,
      `get` past either end of the document's sentence list, and (in the
      constructor as written) reading a speaker field that is still null. */
  datatype QuoteError =
    | NullSentenceBegin
    | NullSentenceEnd
    | IndexOutOfBounds(index: int)
    | NullSpeakerField

  /** Reference definition: the sentences at indices first..last inclusive,
      ascending. It is the slice first..last of the document's list:
      end-begin+1 sentences (none when begin > end), the i-th being sentence
      first+i. */
  function SentenceRange<T>(sentences: seq<T>, first: int, last: int): (r: seq<T>)
    requires first > last || (0 <= first && last < |sentences|)
    ensures |r| == if first > last then 0 else last - first + 1
    ensures forall i :: 0 <= i < |r| ==> r[i] == sentences[first + i]
    ensures first <= last ==> r == sentences[first..last + 1]
    decreases last - first
  {
    if first > last then [] else [sentences[first]] + SentenceRange(sentences, first + 1, last)
  }

  /** The index at which the constructor's loop calls `get` out of range,
      if any: the loop visits first, first+1, ..., last and fails at the
      first index outside 0..count-1. */
  function RangeError(count: nat, first: int, last: int): (r: Option<int>)
    ensures r.None? <==> first > last || (0 <= first && last < count)
  {
    if first > last then None
    else if first < 0 || first >= count then Some(first)
    else if last >= count then Some(count)
    else None
  }

  /** The reported index is the first visited index that is out of range:
      every index the loop visited before it (first..k-1) was in range. */
  lemma RangeErrorIsFirstBadIndex(count: nat, first: int, last: int)
    requires RangeError(count, first, last).Some?
    ensures var k := RangeError(count, first, last).value;
      && first <= k <= last
      && (k < 0 || k >= count)
      && (first < k ==> 0 <= first && k <= count)
  {
  }

  /** Why building the view from this map and a document of `count` sentences fails, if it does. */
  function ConstructionError(count: nat, quoteMap: QuoteMap): (r: Option<QuoteError>)
    ensures quoteMap.sentenceBegin.None? ==> r == Some(NullSentenceBegin)
    ensures quoteMap.sentenceBegin.Some? && quoteMap.sentenceEnd.None? ==> r == Some(NullSentenceEnd)
    ensures quoteMap.sentenceBegin.Some? && quoteMap.sentenceEnd.Some? ==>
      (r.None? <==> RangeError(count, quoteMap.sentenceBegin.value, quoteMap.sentenceEnd.value).None?)
    ensures quoteMap.sentenceBegin.Some? && quoteMap.sentenceEnd.Some? && r.Some? ==>
      r.value == IndexOutOfBounds(RangeError(count, quoteMap.sentenceBegin.value, quoteMap.sentenceEnd.value).value)
  {
    match (quoteMap.sentenceBegin, quoteMap.sentenceEnd)
    case (None, _) => Some(NullSentenceBegin)
    case (Some(_), None) => Some(NullSentenceEnd)
    case (Some(first), Some(last)) =>
      match RangeError(count, first, last)
      case Some(k) => Some(IndexOutOfBounds(k))
      case None => None
  }

  /** Lines 37-41 of the constructor: unbox both indices, then `add` each
      document sentence from first to last, in order. */
  method ResolveSentences(document: seq<CoreSentence>, quoteMap: QuoteMap) returns (r: Result<seq<CoreSentence>, QuoteError>)
    ensures r.Failure? <==> ConstructionError(|document|, quoteMap).Some?
    ensures r.Failure? ==> r.error == ConstructionError(|document|, quoteMap).value
    ensures r.Success? ==> r.value == SentenceRange(document, quoteMap.sentenceBegin.value, quoteMap.sentenceEnd.value)
  {
    if quoteMap.sentenceBegin.None? {
      return Failure(NullSentenceBegin);
    }
    if quoteMap.sentenceEnd.None? {
      return Failure(NullSentenceEnd);
    }
    var first: int := quoteMap.sentenceBegin.value;
    var last: int := quoteMap.sentenceEnd.value;
    var sentences: seq<CoreSentence> := [];
    var current := first;
    while current <= last
      invariant first <= current
      invariant current == first || current <= last + 1
      invariant current > first ==> 0 <= first && current <= |document|
      invariant current > first ==> sentences == document[first..current]
      invariant current == first ==> sentences == []
      decreases last - current
    {
      if current < 0 || current >= |document| {
        return Failure(IndexOutOfBounds(current));
      }
      sentences := sentences + [document[current]];
      current := current + 1;
    }
    r := Success(sentences);
  }

  /** A Java `Optional<String>` field, which may itself be null. */
  datatype NullableOptional = NullRef | Ref(optional: Option<string>)

  /** Lines 55-56: `hasSpeaker = speaker.isPresent()` and likewise for the
      canonical speaker; calling isPresent on a null field throws. */
  function SpeakerFlags(speaker: NullableOptional, canonicalSpeaker: NullableOptional): (r: Result<(bool, bool), QuoteError>)
    ensures r.Failure? <==> speaker.NullRef? || canonicalSpeaker.NullRef?
    ensures r.Success? ==> r.value == (speaker.optional.Some?, canonicalSpeaker.optional.Some?)
  {
    match (speaker, canonicalSpeaker)
    case (NullRef, _) => Failure(NullSpeakerField)
    case (_, NullRef) => Failure(NullSpeakerField)
    case (Ref(s), Ref(c)) => Success((s.Some?, c.Some?))
  }

  /** The constructor as written: `speaker` and `canonicalSpeaker` are never
      assigned, so they keep Java's default null and line 55 throws after the
      sentences are resolved. No input builds a quote view. */
  function ConstructAsWritten(count: nat, quoteMap: QuoteMap): (r: Result<(bool, bool), QuoteError>)
    ensures r.Failure?
    ensures ConstructionError(count, quoteMap).Some? ==> r.error == ConstructionError(count, quoteMap).value
    ensures ConstructionError(count, quoteMap).None? ==> r.error == NullSpeakerField
  {
    match ConstructionError(count, quoteMap)
    case Some(e) => Failure(e)
    case None => SpeakerFlags(NullRef, NullRef)
  }

  /** A quote of the only sentence of a one-sentence document: its range
      resolves, yet the constructor as written still fails, on the speaker
      fields, where the corrected Create succeeds. */
  lemma AsWrittenFailsOnValidQuote(quoteMap: QuoteMap)
    requires quoteMap.sentenceBegin == Some(0) && quoteMap.sentenceEnd == Some(0)
    ensures ConstructionError(1, quoteMap).None?
    ensures ConstructAsWritten(1, quoteMap) == Failure(NullSpeakerField)
  {
  }

  class CoreQuote {
    /** The document's sentence list (the view's document, as far as it is read). */
    const document: seq<CoreSentence>
    /** The wrapped quote map; the view never changes it. */
    const quoteCoreMap: QuoteMap
    const sentences: seq<CoreSentence>
    var hasSpeaker: bool
    var hasCanonicalSpeaker: bool
    const speaker: Option<string>
    const canonicalSpeaker: Option<string>
    const speakerTokens: Option<seq<Token>>
    const canonicalSpeakerTokens: Option<seq<Token>>
    const speakerCharOffsets: Option<(int32, int32)>
    const canonicalSpeakerCharOffsets: Option<(int32, int32)>
    const speakerEntityMention: Option<EntityMention>
    const canonicalSpeakerEntityMention: Option<EntityMention>

    /** Every speaker field is empty and neither flag is set. */
    predicate NoSpeakerInfo()
      reads this
    {
      && speaker.None? && canonicalSpeaker.None?
      && speakerTokens.None? && canonicalSpeakerTokens.None?
      && speakerCharOffsets.None? && canonicalSpeakerCharOffsets.None?
      && speakerEntityMention.None? && canonicalSpeakerEntityMention.None?
      && !hasSpeaker && !hasCanonicalSpeaker
    }

    /** The field assignments of the constructor once its sentences are
        resolved, with `speaker` and `canonicalSpeaker` set to empty (the
        corrected behaviour), so that both flags come out false. */
    constructor (document: seq<CoreSentence>, quoteCoreMap: QuoteMap, sentences: seq<CoreSentence>)
      ensures this.document == document && this.quoteCoreMap == quoteCoreMap && this.sentences == sentences
      ensures NoSpeakerInfo()
    {
      this.document := document;
      this.quoteCoreMap := quoteCoreMap;
      this.sentences := sentences;
      speakerTokens := None;
      speakerCharOffsets := None;
      speakerEntityMention := None;
      canonicalSpeakerTokens := None;
      canonicalSpeakerCharOffsets := None;
      canonicalSpeakerEntityMention := None;
      speaker := None;
      canonicalSpeaker := None;
      var flags := SpeakerFlags(Ref(None), Ref(None));
      hasSpeaker := flags.value.0;
      hasCanonicalSpeaker := flags.value.1;
    }

    /** `new CoreQuote(document, quoteMap)` with the speaker fields
        initialised: fails exactly as the range resolution does, and otherwise
        holds the sentences first..last and no speaker information. */
    static method Create(document: seq<CoreSentence>, quoteCoreMap: QuoteMap) returns (r: Result<CoreQuote, QuoteError>)
      ensures r.Failure? <==> ConstructionError(|document|, quoteCoreMap).Some?
      ensures r.Failure? ==> r.error == ConstructionError(|document|, quoteCoreMap).value
      ensures r.Success? ==> fresh(r.value)
      ensures r.Success? ==> r.value.document == document && r.value.quoteCoreMap == quoteCoreMap
      ensures r.Success? ==> r.value.sentences == SentenceRange(document, quoteCoreMap.sentenceBegin.value, quoteCoreMap.sentenceEnd.value)
      ensures r.Success? ==> r.value.NoSpeakerInfo()
    {
      var resolved := ResolveSentences(document, quoteCoreMap);
      match resolved
      case Failure(e) =>
        r := Failure(e);
      case Success(sentences) =>
        var quote := new CoreQuote(document, quoteCoreMap, sentences);
        r := Success(quote);
    }

    /** text(). */
    function Text(): (r: Option<string>)
      ensures r == quoteCoreMap.text
    {
      quoteCoreMap.text
    }

    /** sentences(). */
    function Sentences(): (r: seq<CoreSentence>)
      ensures r == sentences
    {
      sentences
    }

    /** quoteCharOffsets(): the quote's (begin, end) character offsets; a
        missing offset makes the unboxing throw (None). */
    function QuoteCharOffsets(): (r: Option<(int32, int32)>)
      ensures r.Some? <==> quoteCoreMap.charBegin.Some? && quoteCoreMap.charEnd.Some?
      ensures r.Some? ==> r.value == (quoteCoreMap.charBegin.value, quoteCoreMap.charEnd.value)
    {
      OffsetPair(quoteCoreMap.charBegin, quoteCoreMap.charEnd)
    }
  }
}
