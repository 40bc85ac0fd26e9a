/** The annotation maps (CoreMaps) that the views and the JSON writer read,
    reduced to the annotations the modelled code asks for. A missing
    annotation is None, which is what CoreMap.get returns for it (null). */
module CoreMaps {
  import opened Wrappers
  import opened JavaInt

  /** A token (CoreLabel): word(), tag(), lemma() (lemmaText) and ner(). */
  datatype Token = Token(word: Option<string>, tag: Option<string>, lemmaText: Option<string>, ner: Option<string>)

  /** An entity-mention map, with its NER label probabilities listed in the
      iteration order of the source's Map<String, Double>; a probability may
      be null. */
  datatype MentionMap = MentionMap(
    tokenBegin: Option<int32>,
    tokenEnd: Option<int32>,
    text: Option<string>,
    charBegin: Option<int32>,
    charEnd: Option<int32>,
    ner: Option<string>,
    normalizedNer: Option<string>,
    nerConfidences: Option<seq<(string, Option<real>)>>)

  /** A sentence map. */
  datatype SentenceMap = SentenceMap(
    text: Option<string>,
    charBegin: Option<int32>,
    charEnd: Option<int32>,
    tokenBegin: Option<int32>,
    tokens: Option<seq<Token>>,
    mentions: Option<seq<MentionMap>>)

  /** A quotation map. */
  datatype QuoteMap = QuoteMap(
    text: Option<string>,
    charBegin: Option<int32>,
    charEnd: Option<int32>,
    sentenceBegin: Option<int32>,
    sentenceEnd: Option<int32>)

  /** `new Pair<>(begin, end)` after unboxing both offsets into `int`s:
      unboxing a missing (null) offset throws, which is None here. */
  function OffsetPair(begin: Option<int32>, end: Option<int32>): (r: Option<(int32, int32)>)
    ensures r.Some? <==> begin.Some? && end.Some?
    ensures r.Some? ==> r.value.0 == begin.value && r.value.1 == end.value
  {
    if begin.Some? && end.Some? then Some((begin.value, end.value)) else None
  }
}
