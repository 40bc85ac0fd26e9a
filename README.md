# Stanford CoreNLP pipeline helpers, modelled in Dafny

This project models five small parts of the `edu.stanford.nlp.pipeline`
package and proves what they promise:

- **The JSON writer** (`JSONOutputter.JSONWriter`). It writes objects and
  arrays as defined in sections 4 and 5 of RFC 8259 by appending text to a
  `PrintWriter`. The model also covers the entity-mention part of
  `JSONOutputter.print`.
  - `JsonOutputter.JsonWriter` is a class whose `out` field is everything
    written so far. Its methods `Indent`, `Space`, `Newline`, `RouteObject`,
    `Object` and `Set` append to `out` step by step, as the Java methods do.
  - The values handed to `routeObject` are a closed datatype `Value`. A
    callback `Consumer<Writer>` is represented by the list of `set(key, value)`
    calls it makes (`Obj(entries)`).
  - Each method is proved against a specification function (`RenderValue`,
    `RenderObject`). Lemmas about those functions state the layout the source
    promises:
    - commas between written pairs only;
    - skipped pairs leave no trace;
    - braces and brackets;
    - a `Pair` is written as a two-element list;
    - integers are written as text that parses back.
  - `JsonMentions` gives the pairs written for one entity mention, and states:
    - the sentence-relative token offsets;
    - the filter that drops the `"O"` NER label;
    - the nested confidence object, where a null confidence is a skipped pair.
- **The quote view** (`CoreQuote`). Its construction resolves an inclusive
  sentence-index range into the document's sentences.
- **The sentence view** (`CoreSentence`). It offers projections over the
  token list and a cached list of entity-mention wrappers.
- **The language lookup** (`LanguageInfo`). It matches names and two-letter
  codes case-insensitively against six languages, and maps each language to
  its properties file.
- **The intermediate graph records and delegations** of `AnnotationSerializer`.

Java conventions used throughout:

- `null` is `None` (module `Wrappers`).
- A thrown exception is a `Failure` result or a `false` success flag.
- Java `int` is the subset type `int32`. Integer subtraction wraps explicitly
  (`JavaInt.Sub`).
- The foreign routines `StringUtils.escapeJsonString` and the US-locale
  `NumberFormat` are fields of the `Style` parameter. The model knows nothing
  about them.

## Model

| member | source | states |
|---|---|---|
| JavaInt.Sub | core/src/main/edu/stanford/nlp/pipeline/JSONOutputter.java:81-86 | Java `int` subtraction: exact when the difference fits in 32 bits, otherwise congruent to it modulo 2^32 |
| CoreMaps.OffsetPair | core/src/main/edu/stanford/nlp/pipeline/CoreSentence.java:58-62 | the (begin, end) pair is present exactly when both offsets are non-null (unboxing null throws), and holds them in order |
| JsonOutputter.IndentText | core/src/main/edu/stanford/nlp/pipeline/JSONOutputter.java:406-412 | the indentation is 2·num spaces when pretty and num > 0, and empty otherwise |
| JsonOutputter.NatText | core/src/main/edu/stanford/nlp/pipeline/JSONOutputter.java:332-339 | the decimal text of a magnitude is non-empty, all digits, and has no leading zero |
| JsonOutputter.NatTextRoundTrip | core/src/main/edu/stanford/nlp/pipeline/JSONOutputter.java:332-339 | reading the digits back gives the number |
| JsonOutputter.IntText | core/src/main/edu/stanford/nlp/pipeline/JSONOutputter.java:332-339 | the text of an integral value is non-empty, starts with '-' exactly when the value is negative, and is all digits after that |
| JsonOutputter.IntTextRoundTrip | core/src/main/edu/stanford/nlp/pipeline/JSONOutputter.java:332-339 | an integral value is written without quotes, starts with '-' exactly when negative, and parses back to itself |
| JsonOutputter.WrittenEntries | core/src/main/edu/stanford/nlp/pipeline/JSONOutputter.java:383 | every call kept writes a pair, and there are no more of them than calls |
| JsonOutputter.WrittenEntriesMembers | core/src/main/edu/stanford/nlp/pipeline/JSONOutputter.java:383 | a call is among the written ones exactly when it is one of the calls and has a non-null key and value |
| JsonOutputter.WrittenEntriesAppend | core/src/main/edu/stanford/nlp/pipeline/JSONOutputter.java:382-398 | the written calls of two runs are those of the first run followed by those of the second, so call order is kept |
| JsonOutputter.SerializableParts | core/src/main/edu/stanford/nlp/pipeline/JSONOutputter.java:382-398 | a callback's calls complete without an exception exactly when its earlier calls and its last call do |
| JsonOutputter.Pieces | core/src/main/edu/stanford/nlp/pipeline/JSONOutputter.java:382-398 | one text per written pair, as many as there are written calls |
| JsonOutputter.PiecesContents | core/src/main/edu/stanford/nlp/pipeline/JSONOutputter.java:382-398 | the i-th text is the key and value text of the i-th written call, whose value is serializable |
| JsonOutputter.JoinCount | core/src/main/edu/stanford/nlp/pipeline/JSONOutputter.java:385-387 | joining n pieces with a one-character separator adds exactly n-1 occurrences of it |
| JsonOutputter.RenderEntriesIsJoin | core/src/main/edu/stanford/nlp/pipeline/JSONOutputter.java:381-398 | the body of an object is the written pairs joined by commas, with no comma before the first pair and none for a skipped call |
| JsonOutputter.ObjectCommaCount | core/src/main/edu/stanford/nlp/pipeline/JSONOutputter.java:381-388 | an object with n > 0 written pairs has exactly n-1 commas of its own besides those inside its pairs |
| JsonOutputter.SkippedEntryWritesNothing | core/src/main/edu/stanford/nlp/pipeline/JSONOutputter.java:383-388 | a call with a null key or value writes nothing and does not use up the first-pair slot: removing it leaves the object's text unchanged |
| JsonOutputter.PiecesSkip | core/src/main/edu/stanford/nlp/pipeline/JSONOutputter.java:383 | removing a skipped call leaves the written pairs' texts unchanged |
| JsonOutputter.SerializableAppend | core/src/main/edu/stanford/nlp/pipeline/JSONOutputter.java:382-398 | two runs of calls complete together exactly when each completes |
| JsonOutputter.PiecesAppend | core/src/main/edu/stanford/nlp/pipeline/JSONOutputter.java:382-398 | the pairs written by two runs of calls are those of each run, in order |
| JsonOutputter.RenderObject | core/src/main/edu/stanford/nlp/pipeline/JSONOutputter.java:379-400 | an object starts with `{` and ends with `}`; with pretty printing off and no written pair it is exactly `{}` |
| JsonOutputter.RenderEntries | core/src/main/edu/stanford/nlp/pipeline/JSONOutputter.java:381-398 | the pairs' text is empty exactly when no call writes a pair |
| JsonOutputter.RenderElemsIsJoin | core/src/main/edu/stanford/nlp/pipeline/JSONOutputter.java:249-257 | after k iterations, the list loop has written the first k elements joined by a comma and newline, then a comma while more follow, or a newline after the last |
| JsonOutputter.ElemPieces | core/src/main/edu/stanford/nlp/pipeline/JSONOutputter.java:250-252 | one indented element text per element |
| JsonOutputter.ElemPiecesContents | core/src/main/edu/stanford/nlp/pipeline/JSONOutputter.java:250-252 | the i-th text is element i, indented at level indent+1 |
| JsonOutputter.RenderValue | core/src/main/edu/stanford/nlp/pipeline/JSONOutputter.java:240-377 | strings and enum names are written in quotes, collections and pairs in brackets, and objects in braces |
| JsonOutputter.ListShape | core/src/main/edu/stanford/nlp/pipeline/JSONOutputter.java:246-259 | a collection is `[`, its elements in iteration order at level indent+1 separated by commas, then `]`; without pretty printing exactly `[` + elements joined by `,` + `]` |
| JsonOutputter.PairIsList | core/src/main/edu/stanford/nlp/pipeline/JSONOutputter.java:265-266 | a Pair is written exactly as the list [first, second], and completes exactly when that list does |
| JsonOutputter.ScalarShapes | core/src/main/edu/stanford/nlp/pipeline/JSONOutputter.java:241-357 | strings and enum names are the quoted escaped text; integers are unquoted decimal text that parses back; booleans are `true`/`false`; a character is written bare |
| JsonOutputter.UnsupportedIsRefused | core/src/main/edu/stanford/nlp/pipeline/JSONOutputter.java:374-375 | a value of unsupported class, or null, makes routing throw, alone or inside a list, a pair or a written pair; a skipped pair with such a value completes |
| JsonOutputter.JsonWriter.constructor | core/src/main/edu/stanford/nlp/pipeline/JSONOutputter.java:234-237 | a new writer has written nothing and keeps its options |
| JsonOutputter.JsonWriter.Indent | core/src/main/edu/stanford/nlp/pipeline/JSONOutputter.java:406-412 | the counting loop appends exactly IndentText: num copies of INDENT_CHAR when pretty, else nothing |
| JsonOutputter.JsonWriter.Space | core/src/main/edu/stanford/nlp/pipeline/JSONOutputter.java:418-422 | appends one space when pretty, else nothing |
| JsonOutputter.JsonWriter.Newline | core/src/main/edu/stanford/nlp/pipeline/JSONOutputter.java:424-428 | appends one newline when pretty, else nothing |
| JsonOutputter.JsonWriter.RouteObject | core/src/main/edu/stanford/nlp/pipeline/JSONOutputter.java:240-377 | completes exactly when the value is serializable, and then appends exactly RenderValue |
| JsonOutputter.JsonWriter.Collection | core/src/main/edu/stanford/nlp/pipeline/JSONOutputter.java:246-259 | the collection branch completes exactly when every element does, and then appends the list's text |
| JsonOutputter.JsonWriter.Element | core/src/main/edu/stanford/nlp/pipeline/JSONOutputter.java:251-256 | one loop pass appends the indentation, the element, a comma when more follow, and a newline |
| JsonOutputter.JsonWriter.Object | core/src/main/edu/stanford/nlp/pipeline/JSONOutputter.java:379-400 | completes exactly when every set call does, and then appends exactly RenderObject; the first-call flag is true exactly while no pair has been written |
| JsonOutputter.JsonWriter.Set | core/src/main/edu/stanford/nlp/pipeline/JSONOutputter.java:382-397 | a call with a null key or value appends nothing; otherwise it appends a comma unless it is the first pair, then the key text and the value |
| JsonOutputter.JsonWriter.Key | core/src/main/edu/stanford/nlp/pipeline/JSONOutputter.java:390-394 | appends the newline, indentation at level indent+1, the quoted escaped key, the colon and the space |
| JsonOutputter.JsonWriter.TopLevelObject | core/src/main/edu/stanford/nlp/pipeline/JSONOutputter.java:402-404 | an outermost object is an object at indentation 0 |
| JsonMentions.Lookup | core/src/main/edu/stanford/nlp/pipeline/JSONOutputter.java:76-106 | the value a reader finds for a key is that of a written pair with that key |
| JsonMentions.LookupAppend | core/src/main/edu/stanford/nlp/pipeline/JSONOutputter.java:76-106 | looking up a key in two runs of pairs finds it in the first run if there, else in the second |
| JsonMentions.LookupAbsent | core/src/main/edu/stanford/nlp/pipeline/JSONOutputter.java:76-106 | a key no call uses is not found |
| JsonMentions.LookupOnlyAt | core/src/main/edu/stanford/nlp/pipeline/JSONOutputter.java:87-94 | when exactly one call sets a key, a reader finds that call's value if it is non-null and nothing otherwise |
| JsonMentions.Labels | core/src/main/edu/stanford/nlp/pipeline/JSONOutputter.java:96-98 | the keys of the confidence map, one per entry, in iteration order |
| JsonMentions.NerLabelsWithConfidences | core/src/main/edu/stanford/nlp/pipeline/JSONOutputter.java:97-99 | every kept label is a key of the map other than "O", and there are no more of them than keys |
| JsonMentions.NerLabelsMembers | core/src/main/edu/stanford/nlp/pipeline/JSONOutputter.java:97-99 | a label is kept exactly when it is a key of the map and is not "O" |
| JsonMentions.ConfidenceIsFirstValue | core/src/main/edu/stanford/nlp/pipeline/JSONOutputter.java:103 | `get(label)` gives the confidence the map pairs with the label |
| JsonMentions.ConfidenceEntries | core/src/main/edu/stanford/nlp/pipeline/JSONOutputter.java:101-105 | the nested object makes one set call per kept label, in order, whose value is that label's confidence as a Double, or null when the map holds null for it |
| JsonMentions.ConfidenceEntriesKeys | core/src/main/edu/stanford/nlp/pipeline/JSONOutputter.java:102-104 | the nested object makes a set call for a label exactly when the label is one of those iterated |
| JsonMentions.ConfidenceKeys | core/src/main/edu/stanford/nlp/pipeline/JSONOutputter.java:96-105 | the nested object makes a set call for exactly the map's labels other than "O" |
| JsonMentions.ConfidenceEntriesLookup | core/src/main/edu/stanford/nlp/pipeline/JSONOutputter.java:102-104 | a reader finds a label's confidence in the nested object exactly when the label is iterated and its confidence is non-null |
| JsonMentions.NestedConfidenceLookup | core/src/main/edu/stanford/nlp/pipeline/JSONOutputter.java:96-105 | a reader of the nested object finds exactly the labels other than "O" whose confidence is non-null, each with its confidence; a null confidence is skipped |
| JsonMentions.MentionEntries | core/src/main/edu/stanford/nlp/pipeline/JSONOutputter.java:76-106 | a mention's pairs exist exactly when its confidence map is non-null; a null map makes `keySet` throw |
| JsonMentions.LookupMention | core/src/main/edu/stanford/nlp/pipeline/JSONOutputter.java:79-106 | a key is found in the offsets, then the relative offsets, then the text fields, then the confidences, in that order |
| JsonMentions.DocOffsets | core/src/main/edu/stanford/nlp/pipeline/JSONOutputter.java:77-80 | sets only docTokenBegin and docTokenEnd; a reader finds each as the mention's offset exactly when it is non-null |
| JsonMentions.RelativeOffsets | core/src/main/edu/stanford/nlp/pipeline/JSONOutputter.java:81-86 | sets only tokenBegin and tokenEnd; each is the document offset minus the sentence's first token index (Java int subtraction), present exactly when both operands are non-null |
| JsonMentions.MentionFields | core/src/main/edu/stanford/nlp/pipeline/JSONOutputter.java:87-94 | sets only text, characterOffsetBegin, characterOffsetEnd, ner and normalizedNER; a reader finds each of the text, the two character offsets, the NER tag and the normalized NER tag as the mention holds it, exactly when it is non-null |
| JsonMentions.ConfidenceObject | core/src/main/edu/stanford/nlp/pipeline/JSONOutputter.java:96-106 | sets "nerConfidences" at most once, to the nested object of the kept labels, and sets nothing exactly when every label of the map is "O" |
| JsonMentions.MentionOffsets | core/src/main/edu/stanford/nlp/pipeline/JSONOutputter.java:75-86 | tokenBegin/tokenEnd are the document offsets minus the sentence's first token index (Java int subtraction), present exactly when both are non-null |
| JsonMentions.MentionDocOffsets | core/src/main/edu/stanford/nlp/pipeline/JSONOutputter.java:77-80 | docTokenBegin/docTokenEnd are written as they are, and skipped when null |
| JsonMentions.MentionConfidences | core/src/main/edu/stanford/nlp/pipeline/JSONOutputter.java:96-106 | "nerConfidences" is written exactly when the map has a label other than "O", and then holds one set call per such label |
| JsonMentions.ConfidenceObjectSerializable | core/src/main/edu/stanford/nlp/pipeline/JSONOutputter.java:101-105 | the "nerConfidences" pair never makes the writer throw: null confidences are skipped and the rest are numbers |
| JsonMentions.MentionSerializable | core/src/main/edu/stanford/nlp/pipeline/JSONOutputter.java:76-106 | a mention's pairs never make the writer throw |
| LanguageInfo.LanguageToPropertiesFile | core/src/main/edu/stanford/nlp/pipeline/LanguageInfo.java:18-37 | each language's file is "StanfordCoreNLP", a dash and the language's name for every language but English, then ".properties" |
| LanguageInfo.LowerAscii | core/src/main/edu/stanford/nlp/pipeline/LanguageInfo.java:69-81 | ASCII lower-casing keeps the length and maps each character on its own |
| LanguageInfo.EqualsIgnoreCase | core/src/main/edu/stanford/nlp/pipeline/LanguageInfo.java:70-81 | `equalsIgnoreCase` against a lower-case word: a match has the word's length, and every input whose ASCII lower-casing is the word matches |
| LanguageInfo.Name | core/src/main/edu/stanford/nlp/pipeline/LanguageInfo.java:70-81 | each full name the lookup accepts is lower-case ASCII, longer than a code |
| LanguageInfo.Code | core/src/main/edu/stanford/nlp/pipeline/LanguageInfo.java:70-81 | each code the lookup accepts is two lower-case ASCII letters |
| LanguageInfo.GetLanguageFromString | core/src/main/edu/stanford/nlp/pipeline/LanguageInfo.java:69-84 | a language found is one whose name or code the input spells, ignoring case |
| LanguageInfo.GetLanguagePropertiesFile | core/src/main/edu/stanford/nlp/pipeline/LanguageInfo.java:56-58 | a file is returned exactly for recognised input, and it is the table's file for the recognised language |
| LanguageInfo.FoldsToUnique | core/src/main/edu/stanford/nlp/pipeline/LanguageInfo.java:69-81 | no character matches two different letters, ignoring case |
| LanguageInfo.MatchedWordUnique | core/src/main/edu/stanford/nlp/pipeline/LanguageInfo.java:69-81 | a string matches at most one lower-case word, ignoring case |
| LanguageInfo.DenotesUnique | core/src/main/edu/stanford/nlp/pipeline/LanguageInfo.java:69-81 | no string spells two different languages |
| LanguageInfo.WordsOfLanguagesDistinct | core/src/main/edu/stanford/nlp/pipeline/LanguageInfo.java:69-81 | the names and codes of different languages are different words |
| LanguageInfo.GetLanguageFromStringDenotes | core/src/main/edu/stanford/nlp/pipeline/LanguageInfo.java:69-84 | the lookup gives a language exactly when the input is its name or code in any letter case |
| LanguageInfo.GetLanguageFromStringAbsent | core/src/main/edu/stanford/nlp/pipeline/LanguageInfo.java:82-83 | the lookup gives null exactly when the input spells no language |
| LanguageInfo.EqualsIgnoreCaseRespectsLower | core/src/main/edu/stanford/nlp/pipeline/LanguageInfo.java:70-81 | matching a lower-case word depends on the input only through its ASCII lower-casing |
| LanguageInfo.GetLanguageFromStringIgnoresCase | core/src/main/edu/stanford/nlp/pipeline/LanguageInfo.java:69-84 | two inputs that agree after ASCII lower-casing map to the same language |
| LanguageInfo.NameAndCodeMapBack | core/src/main/edu/stanford/nlp/pipeline/LanguageInfo.java:69-81 | each language's name and code, in any case, map to that language |
| LanguageInfo.PropertiesFileInjective | core/src/main/edu/stanford/nlp/pipeline/LanguageInfo.java:29-37 | the table gives each language its own file |
| LanguageInfo.IsStanfordCoreNLPSupportedLang | core/src/main/edu/stanford/nlp/pipeline/LanguageInfo.java:87-89 | a language is supported exactly when the input spells some language |
| LanguageInfo.IsSegmenterLanguage | core/src/main/edu/stanford/nlp/pipeline/LanguageInfo.java:92-94 | true exactly for the languages named "arabic" and "chinese"; false for null |
| LanguageInfo.IsSegmenterLanguageName | core/src/main/edu/stanford/nlp/pipeline/LanguageInfo.java:96-98 | the string overload holds exactly for spellings of Arabic and Chinese, so it is false for unrecognised input |
| SentenceView.Wrap | core/src/main/edu/stanford/nlp/pipeline/CoreSentence.java:37-38 | one wrapper per mention, the i-th wrapping mention i of this sentence |
| SentenceView.Project | core/src/main/edu/stanford/nlp/pipeline/CoreSentence.java:70-80 | a projection keeps the token list's length and order, the i-th entry being the field of token i |
| SentenceView.CoreSentence.constructor | core/src/main/edu/stanford/nlp/pipeline/CoreSentence.java:29-32 | the view holds the given map and no wrapped mentions yet (null) |
| SentenceView.CoreSentence.WrapEntityMentions | core/src/main/edu/stanford/nlp/pipeline/CoreSentence.java:35-40 | with a mentions list, the cache becomes one wrapper per mention in order; without one, it is left unchanged |
| SentenceView.CoreSentence.Text | core/src/main/edu/stanford/nlp/pipeline/CoreSentence.java:53-55 | the wrapped map's text annotation, null when absent |
| SentenceView.CoreSentence.CharOffsets | core/src/main/edu/stanford/nlp/pipeline/CoreSentence.java:58-62 | the sentence's (begin, end) character offsets; a missing offset throws |
| SentenceView.CoreSentence.Tokens | core/src/main/edu/stanford/nlp/pipeline/CoreSentence.java:65-67 | the wrapped map's token list; it is null exactly when the projections throw, and has as many tokens as they have entries |
| SentenceView.CoreSentence.TokensAsStrings | core/src/main/edu/stanford/nlp/pipeline/CoreSentence.java:70-71 | same length as the tokens, the i-th entry being token i's word; a missing token list throws |
| SentenceView.CoreSentence.PosTags | core/src/main/edu/stanford/nlp/pipeline/CoreSentence.java:74 | same length as the tokens, the i-th entry being token i's tag |
| SentenceView.CoreSentence.Lemmas | core/src/main/edu/stanford/nlp/pipeline/CoreSentence.java:77 | same length as the tokens, the i-th entry being token i's lemma |
| SentenceView.CoreSentence.NerTags | core/src/main/edu/stanford/nlp/pipeline/CoreSentence.java:80 | same length as the tokens, the i-th entry being token i's NER tag |
| SentenceView.CoreSentence.EntityMentions | core/src/main/edu/stanford/nlp/pipeline/CoreSentence.java:84 | the cache as it stands: null until wrapEntityMentions finds a mentions list |
| SentenceView.WrapTwice | core/src/main/edu/stanford/nlp/pipeline/CoreSentence.java:35-40 | wrapping twice over an unchanged map gives the same wrappers; with no mentions list, the cache stays as it was |
| QuoteView.SentenceRange | core/src/main/edu/stanford/nlp/pipeline/CoreQuote.java:36-41 | the sentences are document[begin..end] inclusive, ascending, end-begin+1 of them (none when begin > end), the i-th being sentence begin+i |
| QuoteView.RangeError | core/src/main/edu/stanford/nlp/pipeline/CoreQuote.java:39-40 | the loop's `get` fails exactly when the range is non-empty and leaves the document's list |
| QuoteView.RangeErrorIsFirstBadIndex | core/src/main/edu/stanford/nlp/pipeline/CoreQuote.java:39-40 | the failing index is the first visited index out of range |
| QuoteView.ConstructionError | core/src/main/edu/stanford/nlp/pipeline/CoreQuote.java:37-40 | construction fails on a null begin index, then on a null end index, then with an index-out-of-bounds error at the first out-of-range index RangeError reports |
| QuoteView.ResolveSentences | core/src/main/edu/stanford/nlp/pipeline/CoreQuote.java:36-41 | the constructor's loop fails exactly as ConstructionError says, and otherwise yields the sentence range |
| QuoteView.SpeakerFlags | core/src/main/edu/stanford/nlp/pipeline/CoreQuote.java:55-56 | the flags are the presence of speaker and canonical speaker; a null field throws |
| QuoteView.ConstructAsWritten | core/src/main/edu/stanford/nlp/pipeline/CoreQuote.java:32-57 | the constructor as written always throws: on the range first, otherwise on the never-assigned speaker field |
| QuoteView.AsWrittenFailsOnValidQuote | core/src/main/edu/stanford/nlp/pipeline/CoreQuote.java:55 | a quote of the only sentence of a one-sentence document resolves its range, yet the constructor as written fails on the speaker field |
| QuoteView.CoreQuote.constructor | core/src/main/edu/stanford/nlp/pipeline/CoreQuote.java:46-56 | the view keeps its document, map and sentences; every speaker field is empty and both flags are false |
| QuoteView.CoreQuote.Create | core/src/main/edu/stanford/nlp/pipeline/CoreQuote.java:32-57 | with the speaker fields initialised: fails exactly as the range resolution does, otherwise a new view holding sentences begin..end and no speaker information |
| QuoteView.CoreQuote.Text | core/src/main/edu/stanford/nlp/pipeline/CoreQuote.java:70-72 | the wrapped quote map's text annotation, null when absent |
| QuoteView.CoreQuote.Sentences | core/src/main/edu/stanford/nlp/pipeline/CoreQuote.java:75-77 | the sentence list resolved at construction |
| QuoteView.CoreQuote.QuoteCharOffsets | core/src/main/edu/stanford/nlp/pipeline/CoreQuote.java:118-122 | the quote's (begin, end) character offsets; a missing offset throws |
| AnnotationSerializer.WriteCoreDocument | core/src/main/edu/stanford/nlp/pipeline/AnnotationSerializer.java:48-51 | the result is `write` applied to the document's annotation and the given stream |
| AnnotationSerializer.ReadCoreDocument | core/src/main/edu/stanford/nlp/pipeline/AnnotationSerializer.java:63-68 | the document wraps the annotation `read` returned, and the stream returned is the caller's, not the one `read` handed back |
| AnnotationSerializer.IntermediateNode.constructor | core/src/main/edu/stanford/nlp/pipeline/AnnotationSerializer.java:77-83 | every argument is stored unchanged in its field |
| AnnotationSerializer.IntermediateEdge.constructor | core/src/main/edu/stanford/nlp/pipeline/AnnotationSerializer.java:93-100 | every argument is stored unchanged in its field |
| AnnotationSerializer.IntermediateSemanticGraph.Empty | core/src/main/edu/stanford/nlp/pipeline/AnnotationSerializer.java:106-109 | a new graph has empty node and edge lists |
| AnnotationSerializer.IntermediateSemanticGraph.constructor | core/src/main/edu/stanford/nlp/pipeline/AnnotationSerializer.java:111-114 | the graph's lists equal the given nodes and edges, element by element |
| AnnotationSerializer.CopyIsDefensive | core/src/main/edu/stanford/nlp/pipeline/AnnotationSerializer.java:111-114 | the graph is new, and its lists equal the given arrays; since the graph's lists are sequence values, this contract cannot tell a copying constructor from an aliasing one |

## Left out

- The rest of `JSONOutputter.print`: the document, sentence and token pairs. They are more set calls of the same kind, reading annotations this model does not define. `TextOutputter.java` and `AnnotatorImplementations.java` are not part of this model either.
- Float and Double formatting (`NumberFormat` with 7 or 14 fraction digits) is the `formatNumber` field of `Style`, and `StringUtils.escapeJsonString` is its `escape` field: both are foreign routines about which nothing is assumed. Float and Double values are `real` numbers, so NaN, the infinities and negative zero cannot be expressed, and how `NumberFormat` writes them is not modelled.
- The reflective primitive-array, boxed-primitive and `Stream` branches of `routeObject` are collapsed into the `List` case. Short, Byte and Long values are `Int` with unbounded width. The `IllegalStateException` for an unknown primitive array type cannot arise in this value model.
- A callback is modelled as the sequence of `set` calls it makes. A callback that writes to the underlying writer directly, or that throws on its own, is not modelled.
- JsonOutputter.JsonWriter.RouteObject: when routing throws, what was already written before the exception is left unspecified: the partial output a throwing call leaves in the caller's stream is not modelled.
- JsonOutputter.JsonWriter.Collection: the same, for an element that throws.
- JsonOutputter.JsonWriter.Element: the same.
- JsonOutputter.JsonWriter.Object: the same, for a set call that throws.
- JsonOutputter.JsonWriter.Set: the same.
- `PrintWriter` encoding and flushing, `JSONWriter.flush` and `objectToJSON` are I/O. The writer's output is the `out` string.
- The NER confidence map is an ordered list of (label, confidence) pairs in the map's iteration order. A Java map has distinct keys. The model does not exclude duplicates, and `get` is read as the first occurrence. A confidence may be null: its label is still kept and iterated, and its set call writes nothing, so a map such as {PERSON: null} gives an empty `"nerConfidences": {}` object.
- JsonMentions.MentionEntries: labels are never null, so the NullPointerException that `x.equals("O")` throws on a null key (JSONOutputter.java:98) is not represented.
- `CoreDocument` and `CoreEntityMention` are not part of this model beyond what the views read. A mention wrapper is a value (the sentence and the mention map), so object identity of wrappers is not modelled. `toString` is left out.
- SentenceView.CoreSentence: the `document` field and the `document()` accessor are not modelled; the view holds only its `coreMap`, which is what `coreMap()` returns. QuoteView.CoreQuote: its `document` field holds the document's sentence list, the only part of the document the constructor reads, so `document()` returns that list rather than a `CoreDocument`; its Optional speaker accessors are its fields.
- `getLanguageFromString(null)` throws a NullPointerException. Model strings are never null, so this case is not represented.
- Case-insensitive matching follows Java's `equalsIgnoreCase` only for the letters of the language names and codes. It includes the non-ASCII characters that Java folds onto them (dotless i and dotted capital I for `i`, long s for `s`); `FoldsTo` also covers the Kelvin sign for `k`, a letter no language name or code contains.
- `LanguageInfo.getLanguageProperties` is file and classpath I/O. `LanguageInfo.main` is reflection over the class's fields.
- The abstract `write` and `read` of `AnnotationSerializer` are function parameters over an abstract stream type. Their `IOException`, `ClassNotFoundException` and `ClassCastException` are not modelled. The caller's lists given to the copying graph constructor are arrays, so that mutating them afterwards can be stated. The `LOCK` object is left out.
- AnnotationSerializer.CopyIsDefensive: the graph's node and edge lists are sequence values, so the lemma follows from any construction that reads the arrays' contents; whether the constructor copies or aliases the caller's lists is not captured by it.
- AnnotationSerializer.ReadCoreDocument: streams are values, so the state that `read` leaves in the caller's mutable stream is not modelled; the contract states only that the annotation is the one `read` returns and that the caller's own stream handle, not the one `read` returned, is handed back.

## Findings

| source | as written | input that shows it | evidently intended | confidence | as-written member | corrected member |
|---|---|---|---|---|---|---|
| core/src/main/edu/stanford/nlp/pipeline/CoreQuote.java:55-56 | `speaker` and `canonicalSpeaker` (lines 23-24) are never assigned, so `this.speaker.isPresent()` dereferences null and every construction throws | a one-sentence document and a quote map with SentenceBegin = SentenceEnd = 0 | both fields initialised to `Optional.empty()`, like the other speaker fields at lines 46-53, so that `hasSpeaker` and `hasCanonicalSpeaker` are false | high; not executed | QuoteView.ConstructAsWritten | QuoteView.CoreQuote.Create |
