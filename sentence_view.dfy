/** The sentence view (CoreSentence.java): read-only projections over a
    sentence map, plus the cached list of entity-mention wrappers. */
module SentenceView {
  import opened Wrappers
  import opened JavaInt
  import opened CoreMaps

  /** A CoreEntityMention: the wrapper built from the sentence and one
      mention map (its own class is not part of this model). */
  datatype EntityMention = EntityMention(sentence: CoreSentence, coreMap: MentionMap)

  /** One wrapper per mention map, in the same order. */
  function Wrap(sentence: CoreSentence, mentions: seq<MentionMap>): (r: seq<EntityMention>)
    ensures |r| == |mentions|
    ensures forall i :: 0 <= i < |r| ==> r[i] == EntityMention(sentence, mentions[i])
  {
    if mentions == [] then [] else [EntityMention(sentence, mentions[0])] + Wrap(sentence, mentions[1..])
  }

  /** `tokens().stream().map(field).collect(toList())`. */
  function Project(tokens: seq<Token>, field: Token -> Option<string>): (r: seq<Option<string>>)
    ensures |r| == |tokens|
    ensures forall i :: 0 <= i < |r| ==> r[i] == field(tokens[i])
  {
    if tokens == [] then [] else [field(tokens[0])] + Project(tokens[1..], field)
  }

  class CoreSentence {
    /** The wrapped sentence map; the view never changes it. */
    const coreMap: SentenceMap
    /** The cached wrappers; None until wrapEntityMentions finds mentions. */
    var entityMentions: Option<seq<EntityMention>>

    constructor (coreMap: SentenceMap)
      ensures this.coreMap == coreMap
      ensures entityMentions == None
    {
      this.coreMap := coreMap;
      entityMentions := None;
    }

    /** wrapEntityMentions: replaces the cache by one wrapper per mention
        when the map has a mentions list, and otherwise leaves it as it was. */
    method WrapEntityMentions()
      modifies this`entityMentions
      ensures coreMap.mentions.Some? ==> entityMentions == Some(Wrap(this, coreMap.mentions.value))
      ensures coreMap.mentions.None? ==> entityMentions == old(entityMentions)
    {
      if coreMap.mentions.Some? {
        entityMentions := Some(Wrap(this, coreMap.mentions.value));
      }
    }

    /** text(). */
    function Text(): (r: Option<string>)
      ensures r == coreMap.text
    {
      coreMap.text
    }

    /** charOffsets(): the sentence's (begin, end) character offsets; a
        missing offset makes the unboxing throw (None). */
    function CharOffsets(): (r: Option<(int32, int32)>)
      ensures r.Some? <==> coreMap.charBegin.Some? && coreMap.charEnd.Some?
      ensures r.Some? ==> r.value == (coreMap.charBegin.value, coreMap.charEnd.value)
    {
      OffsetPair(coreMap.charBegin, coreMap.charEnd)
    }

    /** tokens(). */
    function Tokens(): (r: Option<seq<Token>>)
      ensures r == coreMap.tokens
      ensures r.Some? <==> TokensAsStrings().Some?
      ensures r.Some? ==> |r.value| == |TokensAsStrings().value|
    {
      coreMap.tokens
    }

    /** tokensAsStrings(): each token's word; a missing token list throws (None). */
    function TokensAsStrings(): (r: Option<seq<Option<string>>>)
      ensures r.Some? <==> coreMap.tokens.Some?
      ensures r.Some? ==> |r.value| == |coreMap.tokens.value|
      ensures r.Some? ==> forall i :: 0 <= i < |r.value| ==> r.value[i] == coreMap.tokens.value[i].word
    {
      match coreMap.tokens
      case Some(tokens) => Some(Project(tokens, (t: Token) => t.word))
      case None => None
    }

    /** posTags(): each token's part-of-speech tag. */
    function PosTags(): (r: Option<seq<Option<string>>>)
      ensures r.Some? <==> coreMap.tokens.Some?
      ensures r.Some? ==> |r.value| == |coreMap.tokens.value|
      ensures r.Some? ==> forall i :: 0 <= i < |r.value| ==> r.value[i] == coreMap.tokens.value[i].tag
    {
      match coreMap.tokens
      case Some(tokens) => Some(Project(tokens, (t: Token) => t.tag))
      case None => None
    }

    /** lemmas(): each token's lemma. */
    function Lemmas(): (r: Option<seq<Option<string>>>)
      ensures r.Some? <==> coreMap.tokens.Some?
      ensures r.Some? ==> |r.value| == |coreMap.tokens.value|
      ensures r.Some? ==> forall i :: 0 <= i < |r.value| ==> r.value[i] == coreMap.tokens.value[i].lemmaText
    {
      match coreMap.tokens
      case Some(tokens) => Some(Project(tokens, (t: Token) => t.lemmaText))
      case None => None
    }

    /** nerTags(): each token's named-entity tag. */
    function NerTags(): (r: Option<seq<Option<string>>>)
      ensures r.Some? <==> coreMap.tokens.Some?
      ensures r.Some? ==> |r.value| == |coreMap.tokens.value|
      ensures r.Some? ==> forall i :: 0 <= i < |r.value| ==> r.value[i] == coreMap.tokens.value[i].ner
    {
      match coreMap.tokens
      case Some(tokens) => Some(Project(tokens, (t: Token) => t.ner))
      case None => None
    }

    /** entityMentions(): the cache as it stands (null before any wrapping). */
    function EntityMentions(): (r: Option<seq<EntityMention>>)
      reads this
      ensures r == entityMentions
    {
      entityMentions
    }
  }

  /** Wrapping twice over the same map yields the same wrappers, in the same
      order, as wrapping once; a fresh view that has no mentions list keeps a
      null cache. */
  method WrapTwice(s: CoreSentence) returns (first: Option<seq<EntityMention>>, second: Option<seq<EntityMention>>)
    modifies s
    ensures first == second
    ensures s.coreMap.mentions.Some? ==> second.Some? && |second.value| == |s.coreMap.mentions.value|
    ensures s.coreMap.mentions.None? ==> second == old(s.entityMentions)
  {
    s.WrapEntityMentions();
    first := s.EntityMentions();
    s.WrapEntityMentions();
    second := s.EntityMentions();
  }
}
