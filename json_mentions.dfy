/** The entity-mention part of `print` in JSONOutputter.java: the set
    calls it makes for one mention of a sentence, as values for the writer. */
module JsonMentions {
  import opened Wrappers
  import opened JavaInt
  import opened CoreMaps
  import opened JsonOutputter

  /** The value a reader of the object sees for `key`: that of the first
      written pair with this key, if any. */
  function Lookup(entries: seq<Entry>, key: string): (r: Option<Value>)
    ensures r.Some? ==> exists i :: 0 <= i < |entries| && Written(entries[i]) && entries[i] == Entry(Some(key), r.value)
  {
    if entries == [] then None
    else if Written(entries[0]) && entries[0].key == Some(key) then Some(entries[0].value)
    else
      var r := Lookup(entries[1..], key);
      assert r.Some? ==> exists i :: 0 <= i < |entries| && Written(entries[i]) && entries[i] == Entry(Some(key), r.value) by {
        if r.Some? {
          var i :| 0 <= i < |entries[1..]| && Written(entries[1..][i]) && entries[1..][i] == Entry(Some(key), r.value);
          assert entries[i + 1] == entries[1..][i];
        }
      }
      r
  }

  lemma {:induction false} LookupAppend(a: seq<Entry>, b: seq<Entry>, key: string)
    ensures Lookup(a + b, key) == if Lookup(a, key).Some? then Lookup(a, key) else Lookup(b, key)
    decreases |a|
  {
    if a == [] {
      assert a + b == b;
    } else {
      LookupAppend(a[1..], b, key);
      assert (a + b)[1..] == a[1..] + b;
    }
  }

  /** Boxing a nullable Integer for `set`: null stays null. */
  function IntOrNull(x: Option<int32>): Value
  {
    match x
    case Some(n) => Int(n)
    case None => Null
  }

  /** Boxing a nullable String for `set`. */
  function StrOrNull(x: Option<string>): Value
  {
    match x
    case Some(s) => Str(s)
    case None => Null
  }

  /** Boxing a nullable Double for `set`. */
  function DoubleOrNull(x: Option<real>): Value
  {
    match x
    case Some(d) => Double(d)
    case None => Null
  }

  /** The keys of a confidence map, in iteration order. */
  function Labels(confidences: seq<(string, Option<real>)>): (r: seq<string>)
    ensures |r| == |confidences| && forall i :: 0 <= i < |r| ==> r[i] == confidences[i].0
  {
    if confidences == [] then [] else [confidences[0].0] + Labels(confidences[1..])
  }

  /** nerLabelsWithConfidences: the keys of the confidence map other than
      "O", in iteration order. */
  function NerLabelsWithConfidences(confidences: seq<(string, Option<real>)>): (r: seq<string>)
    ensures |r| <= |confidences|
    ensures forall i :: 0 <= i < |r| ==> r[i] != "O" && r[i] in Labels(confidences)
  {
    if confidences == [] then []
    else
      var rest := NerLabelsWithConfidences(confidences[1..]);
      assert Labels(confidences) == [confidences[0].0] + Labels(confidences[1..]);
      (if confidences[0].0 != "O" then [confidences[0].0] else []) + rest
  }

  /** A label is kept exactly when it is a key of the map other than "O". */
  lemma {:induction false} NerLabelsMembers(confidences: seq<(string, Option<real>)>, nerLabel: string)
    ensures nerLabel in NerLabelsWithConfidences(confidences) <==> nerLabel != "O" && nerLabel in Labels(confidences)
    decreases |confidences|
  {
    if confidences != [] {
      NerLabelsMembers(confidences[1..], nerLabel);
      assert Labels(confidences) == [confidences[0].0] + Labels(confidences[1..]);
    }
  }

  /** `nerConfidences.get(label)` for a label of the map: its value. */
  function Confidence(confidences: seq<(string, Option<real>)>, nerLabel: string): Option<real>
    requires nerLabel in Labels(confidences)
  {
    assert Labels(confidences) == [confidences[0].0] + Labels(confidences[1..]);
    if confidences[0].0 == nerLabel then confidences[0].1
    else Confidence(confidences[1..], nerLabel)
  }

  /** The confidence read for a label is the one the map pairs with the
      label's first occurrence. */
  lemma {:induction false} ConfidenceIsFirstValue(confidences: seq<(string, Option<real>)>, nerLabel: string)
    requires nerLabel in Labels(confidences)
    ensures exists i :: 0 <= i < |confidences| && confidences[i] == (nerLabel, Confidence(confidences, nerLabel))
                        && forall j :: 0 <= j < i ==> confidences[j].0 != nerLabel
    decreases |confidences|
  {
    assert Labels(confidences) == [confidences[0].0] + Labels(confidences[1..]);
    if confidences[0].0 == nerLabel {
      assert confidences[0] == (nerLabel, Confidence(confidences, nerLabel));
    } else {
      var tail := confidences[1..];
      ConfidenceIsFirstValue(tail, nerLabel);
      var i :| 0 <= i < |tail| && tail[i] == (nerLabel, Confidence(tail, nerLabel))
        && forall j :: 0 <= j < i ==> tail[j].0 != nerLabel;
      assert confidences[i + 1] == tail[i];
      forall j | 0 <= j < i + 1 ensures confidences[j].0 != nerLabel {
        if j > 0 {
          assert confidences[j] == tail[j - 1];
        }
      }
    }
  }

  /** The set calls of the nested "nerConfidences" object: one per label, in order. */
  function ConfidenceEntries(confidences: seq<(string, Option<real>)>, labels: seq<string>): (r: seq<Entry>)
    requires forall i :: 0 <= i < |labels| ==> labels[i] in Labels(confidences)
    ensures |r| == |labels|
    ensures forall i :: 0 <= i < |r| ==> r[i] == Entry(Some(labels[i]), DoubleOrNull(Confidence(confidences, labels[i])))
  {
    if labels == [] then []
    else [Entry(Some(labels[0]), DoubleOrNull(Confidence(confidences, labels[0])))] + ConfidenceEntries(confidences, labels[1..])
  }

  /** The set calls `print` makes for one entity mention of a sentence whose
      first token is `sentTokenBegin`, in order; None when the mention has no
      NER confidence map, where `keySet` dereferences null. */
  function MentionEntries(m: MentionMap, sentTokenBegin: Option<int32>): (r: Option<seq<Entry>>)
    ensures r.Some? <==> m.nerConfidences.Some?
  {
    match m.nerConfidences
    case None => None
    case Some(confidences) =>
      Some(DocOffsets(m) + RelativeOffsets(m, sentTokenBegin) + MentionFields(m) + ConfidenceObject(confidences))
  }

  /** The document token offsets, as they are: a reader finds each one
      exactly when it is non-null. */
  function DocOffsets(m: MentionMap): (r: seq<Entry>)
    ensures forall i :: 0 <= i < |r| ==> r[i].key == Some("docTokenBegin") || r[i].key == Some("docTokenEnd")
    ensures Lookup(r, "docTokenBegin") == if m.tokenBegin.Some? then Some(Int(m.tokenBegin.value)) else None
    ensures Lookup(r, "docTokenEnd") == if m.tokenEnd.Some? then Some(Int(m.tokenEnd.value)) else None
  {
    var es := [Entry(Some("docTokenBegin"), IntOrNull(m.tokenBegin)), Entry(Some("docTokenEnd"), IntOrNull(m.tokenEnd))];
    assert es[1..] == [es[1]] && es[1..][1..] == [];
    es
  }

  /** The sentence-relative token offsets: `tokenBegin - sentTokenBegin` in
      Java int arithmetic, each set only when both operands are non-null. */
  function RelativeOffsets(m: MentionMap, sentTokenBegin: Option<int32>): (r: seq<Entry>)
    ensures forall i :: 0 <= i < |r| ==> r[i].key == Some("tokenBegin") || r[i].key == Some("tokenEnd")
    ensures Lookup(r, "tokenBegin") ==
      if m.tokenBegin.Some? && sentTokenBegin.Some? then Some(Int(Sub(m.tokenBegin.value, sentTokenBegin.value))) else None
    ensures Lookup(r, "tokenEnd") ==
      if m.tokenEnd.Some? && sentTokenBegin.Some? then Some(Int(Sub(m.tokenEnd.value, sentTokenBegin.value))) else None
  {
    var es :=
      (if m.tokenBegin.Some? && sentTokenBegin.Some?
       then [Entry(Some("tokenBegin"), Int(Sub(m.tokenBegin.value, sentTokenBegin.value)))] else [])
      + (if m.tokenEnd.Some? && sentTokenBegin.Some?
         then [Entry(Some("tokenEnd"), Int(Sub(m.tokenEnd.value, sentTokenBegin.value)))] else []);
    assert |es| == 2 ==> es[1..] == [es[1]] && es[1..][1..] == [];
    assert |es| == 1 ==> es[1..] == [];
    es
  }

  /** The text, character offsets and NER tags of the mention; a reader
      finds the text exactly when it is non-null. */
  function MentionFields(m: MentionMap): (r: seq<Entry>)
    ensures forall i :: 0 <= i < |r| ==> r[i].key.Some? && r[i].key.value in MentionFieldKeys
    ensures Lookup(r, "text") == if m.text.Some? then Some(Str(m.text.value)) else None
    ensures Lookup(r, "characterOffsetBegin") == if m.charBegin.Some? then Some(Int(m.charBegin.value)) else None
    ensures Lookup(r, "characterOffsetEnd") == if m.charEnd.Some? then Some(Int(m.charEnd.value)) else None
    ensures Lookup(r, "ner") == if m.ner.Some? then Some(Str(m.ner.value)) else None
    ensures Lookup(r, "normalizedNER") == if m.normalizedNer.Some? then Some(Str(m.normalizedNer.value)) else None
  {
    var es :=
      [ Entry(Some("text"), StrOrNull(m.text)),
        Entry(Some("characterOffsetBegin"), IntOrNull(m.charBegin)),
        Entry(Some("characterOffsetEnd"), IntOrNull(m.charEnd)),
        Entry(Some("ner"), StrOrNull(m.ner)),
        Entry(Some("normalizedNER"), StrOrNull(m.normalizedNer)) ];
    LookupAbsent(es[1..], "text");
    LookupOnlyAt(es, 1, "characterOffsetBegin");
    LookupOnlyAt(es, 2, "characterOffsetEnd");
    LookupOnlyAt(es, 3, "ner");
    LookupOnlyAt(es, 4, "normalizedNER");
    es
  }

  /** The keys MentionFields sets. */
  const MentionFieldKeys: set<string> := {"text", "characterOffsetBegin", "characterOffsetEnd", "ner", "normalizedNER"}

  /** The "nerConfidences" pair, set only when some label is left after
      dropping "O"; its value is the nested object of ConfidenceEntries. */
  function ConfidenceObject(confidences: seq<(string, Option<real>)>): (r: seq<Entry>)
    ensures forall i :: 0 <= i < |r| ==> r[i] == Entry(Some("nerConfidences"), Obj(ConfidenceEntries(confidences, NerLabelsWithConfidences(confidences))))
    ensures r == [] <==> forall l :: l in Labels(confidences) ==> l == "O"
  {
    var labels := NerLabelsWithConfidences(confidences);
    assert labels != [] ==> labels[0] in Labels(confidences) && labels[0] != "O";
    assert labels == [] ==> forall l :: l in Labels(confidences) ==> l == "O" by {
      forall l | l in Labels(confidences) ensures labels == [] ==> l == "O" {
        NerLabelsMembers(confidences, l);
      }
    }
    if |labels| > 0 then [Entry(Some("nerConfidences"), Obj(ConfidenceEntries(confidences, labels)))] else []
  }

  /** A list of set calls none of which has the key. */
  lemma {:induction false} LookupAbsent(entries: seq<Entry>, key: string)
    requires forall i :: 0 <= i < |entries| ==> entries[i].key != Some(key)
    ensures Lookup(entries, key) == None
    decreases |entries|
  {
    if entries != [] {
      LookupAbsent(entries[1..], key);
    }
  }

  /** When only the call at index k has the key, a reader finds that
      call's value if it is written, and nothing otherwise. */
  lemma LookupOnlyAt(entries: seq<Entry>, k: int, key: string)
    requires 0 <= k < |entries| && entries[k].key == Some(key)
    requires forall i :: 0 <= i < |entries| && i != k ==> entries[i].key != Some(key)
    ensures Lookup(entries, key) == if Written(entries[k]) then Some(entries[k].value) else None
  {
    assert entries == entries[..k] + entries[k..];
    LookupAbsent(entries[..k], key);
    LookupAppend(entries[..k], entries[k..], key);
    assert entries[k..][1..] == entries[k + 1..];
    LookupAbsent(entries[k + 1..], key);
  }

  /** A reader looks for a key in the four groups of a mention's pairs in turn. */
  lemma LookupMention(m: MentionMap, sentTokenBegin: Option<int32>, key: string)
    requires m.nerConfidences.Some?
    ensures var a, b, c, d := DocOffsets(m), RelativeOffsets(m, sentTokenBegin), MentionFields(m), ConfidenceObject(m.nerConfidences.value);
      Lookup(MentionEntries(m, sentTokenBegin).value, key) ==
        if Lookup(a, key).Some? then Lookup(a, key)
        else if Lookup(b, key).Some? then Lookup(b, key)
        else if Lookup(c, key).Some? then Lookup(c, key)
        else Lookup(d, key)
  {
    var a, b, c, d := DocOffsets(m), RelativeOffsets(m, sentTokenBegin), MentionFields(m), ConfidenceObject(m.nerConfidences.value);
    LookupAppend(a + b + c, d, key);
    LookupAppend(a + b, c, key);
    LookupAppend(a, b, key);
  }

  /** A mention's sentence-relative offsets are its document offsets minus
      the sentence's first token index (wrapping as Java int subtraction
      does), present exactly when both are non-null. */
  lemma MentionOffsets(m: MentionMap, sentTokenBegin: Option<int32>)
    requires m.nerConfidences.Some?
    ensures Lookup(MentionEntries(m, sentTokenBegin).value, "tokenBegin") ==
      if m.tokenBegin.Some? && sentTokenBegin.Some? then Some(Int(Sub(m.tokenBegin.value, sentTokenBegin.value))) else None
    ensures Lookup(MentionEntries(m, sentTokenBegin).value, "tokenEnd") ==
      if m.tokenEnd.Some? && sentTokenBegin.Some? then Some(Int(Sub(m.tokenEnd.value, sentTokenBegin.value))) else None
  {
    var d := ConfidenceObject(m.nerConfidences.value);
    LookupAbsent(DocOffsets(m), "tokenBegin");
    LookupAbsent(DocOffsets(m), "tokenEnd");
    LookupAbsent(MentionFields(m), "tokenBegin");
    LookupAbsent(MentionFields(m), "tokenEnd");
    LookupAbsent(d, "tokenBegin");
    LookupAbsent(d, "tokenEnd");
    LookupMention(m, sentTokenBegin, "tokenBegin");
    LookupMention(m, sentTokenBegin, "tokenEnd");
  }

  /** The document token offsets are written as they are, and skipped when
      null. */
  lemma MentionDocOffsets(m: MentionMap, sentTokenBegin: Option<int32>)
    requires m.nerConfidences.Some?
    ensures Lookup(MentionEntries(m, sentTokenBegin).value, "docTokenBegin") ==
      if m.tokenBegin.Some? then Some(Int(m.tokenBegin.value)) else None
    ensures Lookup(MentionEntries(m, sentTokenBegin).value, "docTokenEnd") ==
      if m.tokenEnd.Some? then Some(Int(m.tokenEnd.value)) else None
  {
    var d := ConfidenceObject(m.nerConfidences.value);
    LookupAbsent(RelativeOffsets(m, sentTokenBegin), "docTokenBegin");
    LookupAbsent(RelativeOffsets(m, sentTokenBegin), "docTokenEnd");
    LookupAbsent(MentionFields(m), "docTokenBegin");
    LookupAbsent(MentionFields(m), "docTokenEnd");
    LookupAbsent(d, "docTokenBegin");
    LookupAbsent(d, "docTokenEnd");
    LookupMention(m, sentTokenBegin, "docTokenBegin");
    LookupMention(m, sentTokenBegin, "docTokenEnd");
  }

  /** The nested object makes a set call for exactly the labels it is built from. */
  lemma {:induction false} ConfidenceEntriesKeys(confidences: seq<(string, Option<real>)>, labels: seq<string>, nerLabel: string)
    requires forall i :: 0 <= i < |labels| ==> labels[i] in Labels(confidences)
    ensures nerLabel in labels ==> exists i :: 0 <= i < |labels| && ConfidenceEntries(confidences, labels)[i].key == Some(nerLabel)
    ensures nerLabel !in labels ==> forall i :: 0 <= i < |labels| ==> ConfidenceEntries(confidences, labels)[i].key != Some(nerLabel)
    decreases |labels|
  {
    var es := ConfidenceEntries(confidences, labels);
    if labels != [] {
      var tail := ConfidenceEntries(confidences, labels[1..]);
      ConfidenceEntriesKeys(confidences, labels[1..], nerLabel);
      assert es == [es[0]] + tail;
      assert es[0].key == Some(labels[0]);
      assert nerLabel in labels <==> nerLabel == labels[0] || nerLabel in labels[1..] by {
        assert labels == [labels[0]] + labels[1..];
      }
      if nerLabel == labels[0] {
        assert 0 < |es| && es[0].key == Some(nerLabel);
        assert exists i :: 0 <= i < |es| && es[i].key == Some(nerLabel);
        assert nerLabel in labels;
      } else if nerLabel in labels[1..] {
        var j :| 0 <= j < |tail| && tail[j].key == Some(nerLabel);
        assert es[j + 1] == tail[j];
        assert nerLabel in labels;
      } else {
        forall i | 0 <= i < |es| ensures es[i].key != Some(nerLabel) {
          if i > 0 {
            assert es[i] == tail[i - 1];
          }
        }
      }
    }
  }

  /** The nested object makes a set call for a label exactly when it is a
      label of the confidence map other than "O"; each call's value is given
      by ConfidenceEntries. */
  lemma ConfidenceKeys(confidences: seq<(string, Option<real>)>, nerLabel: string)
    ensures var es := ConfidenceEntries(confidences, NerLabelsWithConfidences(confidences));
      (exists i :: 0 <= i < |es| && es[i].key == Some(nerLabel)) <==> nerLabel in Labels(confidences) && nerLabel != "O"
  {
    NerLabelsMembers(confidences, nerLabel);
    ConfidenceEntriesKeys(confidences, NerLabelsWithConfidences(confidences), nerLabel);
  }

  /** A reader of the nested object finds, for a label, its confidence when
      the label is one of those iterated and its confidence is non-null; a
      null confidence is a skipped set call. */
  lemma {:induction false} ConfidenceEntriesLookup(confidences: seq<(string, Option<real>)>, labels: seq<string>, nerLabel: string)
    requires forall i :: 0 <= i < |labels| ==> labels[i] in Labels(confidences)
    ensures Lookup(ConfidenceEntries(confidences, labels), nerLabel) ==
      if nerLabel in Labels(confidences) && nerLabel in labels && Confidence(confidences, nerLabel).Some?
      then Some(Double(Confidence(confidences, nerLabel).value))
      else None
    decreases |labels|
  {
    if labels != [] {
      var es := ConfidenceEntries(confidences, labels);
      var tail := ConfidenceEntries(confidences, labels[1..]);
      ConfidenceEntriesLookup(confidences, labels[1..], nerLabel);
      assert es[1..] == tail;
      assert nerLabel in labels <==> nerLabel == labels[0] || nerLabel in labels[1..] by {
        assert labels == [labels[0]] + labels[1..];
      }
      if nerLabel == labels[0] {
        var x := Confidence(confidences, nerLabel);
        assert es[0] == Entry(Some(nerLabel), DoubleOrNull(x));
        assert Lookup(es, nerLabel) == if x.Some? then Some(Double(x.value)) else Lookup(tail, nerLabel);
      } else {
        assert es[0].key != Some(nerLabel);
        assert Lookup(es, nerLabel) == Lookup(tail, nerLabel);
      }
    }
  }

  /** The pairs a reader finds in the nested object: each label of the map
      other than "O" whose confidence is non-null, with that confidence, and
      nothing else. */
  lemma NestedConfidenceLookup(confidences: seq<(string, Option<real>)>, nerLabel: string)
    ensures Lookup(ConfidenceEntries(confidences, NerLabelsWithConfidences(confidences)), nerLabel) ==
      if nerLabel in Labels(confidences) && nerLabel != "O" && Confidence(confidences, nerLabel).Some?
      then Some(Double(Confidence(confidences, nerLabel).value))
      else None
  {
    NerLabelsMembers(confidences, nerLabel);
    ConfidenceEntriesLookup(confidences, NerLabelsWithConfidences(confidences), nerLabel);
  }

  /** The "nerConfidences" object is written exactly when the map has some
      label other than "O", and then makes one set call per such label, in
      the map's order (ConfidenceEntries, ConfidenceKeys); the calls whose
      confidence is null write nothing (NestedConfidenceLookup). */
  lemma MentionConfidences(m: MentionMap, sentTokenBegin: Option<int32>)
    requires m.nerConfidences.Some?
    ensures var r := MentionEntries(m, sentTokenBegin).value;
      var confidences := m.nerConfidences.value;
      Lookup(r, "nerConfidences") ==
        if exists l :: l in Labels(confidences) && l != "O"
        then Some(Obj(ConfidenceEntries(confidences, NerLabelsWithConfidences(confidences))))
        else None
  {
    var a, b, c := DocOffsets(m), RelativeOffsets(m, sentTokenBegin), MentionFields(m);
    LookupAbsent(a, "nerConfidences");
    LookupAbsent(b, "nerConfidences");
    assert "nerConfidences" !in MentionFieldKeys;
    LookupAbsent(c, "nerConfidences");
    LookupMention(m, sentTokenBegin, "nerConfidences");
    var confidences := m.nerConfidences.value;
    var d := ConfidenceObject(confidences);
    if d != [] {
      assert Lookup(d, "nerConfidences") == Some(Obj(ConfidenceEntries(confidences, NerLabelsWithConfidences(confidences))));
      var l :| l in Labels(confidences) && l != "O";
      assert exists l :: l in Labels(confidences) && l != "O";
    } else {
      assert Lookup(d, "nerConfidences") == None;
    }
  }

  /** The "nerConfidences" pair never makes the writer throw: a null
      confidence is skipped and every other value is a number. */
  lemma ConfidenceObjectSerializable(confidences: seq<(string, Option<real>)>)
    ensures EntriesSerializable(ConfidenceObject(confidences))
  {
    var labels := NerLabelsWithConfidences(confidences);
    assert EntriesSerializable(ConfidenceEntries(confidences, labels));
  }

  /** The entries of a mention never make the writer throw. */
  lemma MentionSerializable(m: MentionMap, sentTokenBegin: Option<int32>)
    requires m.nerConfidences.Some?
    ensures EntriesSerializable(MentionEntries(m, sentTokenBegin).value)
  {
    var a, b, c, d := DocOffsets(m), RelativeOffsets(m, sentTokenBegin), MentionFields(m), ConfidenceObject(m.nerConfidences.value);
    assert EntriesSerializable(a);
    assert EntriesSerializable(b);
    assert EntriesSerializable(c);
    ConfidenceObjectSerializable(m.nerConfidences.value);
    SerializableAppend(a, b);
    SerializableAppend(a + b, c);
    SerializableAppend(a + b + c, d);
  }

}
