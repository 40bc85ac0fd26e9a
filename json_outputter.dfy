/** The hand-written JSON writer of JSONOutputter.java (its JSONWriter class)
    and the entity-mention part of `print`. Objects and arrays are those of
    sections 4 and 5 of RFC 8259; the text of strings is produced by the
    source's escaping routine, which is a parameter of the model. */
module JsonOutputter {
  import opened Wrappers
  import opened JavaInt
  import opened CoreMaps

  /** INDENT_CHAR: one level of pretty-printed indentation. */
  const IndentChar: string := "  "

  /** The values `routeObject` is handed, as a closed variant in place of
      runtime type tests. */
  datatype Value =
    | Str(s: string)                      // String
    | Int(n: int)                         // Integer, Short, Byte, Long
    | Char(c: char)                       // Character
    | Float(x: real)                      // Float
    | Double(x: real)                     // Double
    | Bool(b: bool)                       // Boolean
    | Enum(name: string)                  // an enum constant, by name()
    | List(elems: seq<Value>)             // a Collection, a Stream or an array
    | PairV(first: Value, second: Value)  // a Pair
    | Obj(entries: seq<Entry>)            // a Consumer<Writer>: the set calls it makes
    | Null                                // null
    | Unsupported                         // an object of any other class

  /** One call `set(key, value)` of a Writer; a None key is a null key. */
  datatype Entry = Entry(key: Option<string>, value: Value)

  /** What the output depends on besides the value: the `pretty` option, and
      the two foreign routines, StringUtils.escapeJsonString and a US-locale
      NumberFormat with the given maximum number of fraction digits. */
  datatype Style = Style(pretty: bool, escape: string -> string, formatNumber: (real, nat) -> string)

  // ---------------------------------------------------------------------
  // Layout: indent, space, newline

  /** What `indent(num)` appends: num copies of INDENT_CHAR when pretty, else
      nothing; a count below one writes nothing. */
  function IndentText(pretty: bool, num: int): (r: string)
    ensures |r| == if pretty && num > 0 then 2 * num else 0
    ensures forall i :: 0 <= i < |r| ==> r[i] == ' '
    decreases num
  {
    if !pretty || num <= 0 then "" else IndentText(pretty, num - 1) + IndentChar
  }

  /** What `newline()` appends. */
  function NewlineText(pretty: bool): string
  {
    if pretty then "\n" else ""
  }

  /** What `space()` appends. */
  function SpaceText(pretty: bool): string
  {
    if pretty then " " else ""
  }

  // ---------------------------------------------------------------------
  // Decimal text of integers (Integer.toString and its siblings)

  predicate IsDigit(c: char) { '0' <= c <= '9' }

  function DigitChar(d: nat): char
    requires d < 10
  {
    ('0' as int + d) as char
  }

  /** The decimal digits of n, most significant first, without leading zeros. */
  function NatText(n: nat): (r: string)
    ensures |r| > 0
    ensures forall i :: 0 <= i < |r| ==> IsDigit(r[i])
    ensures r[0] == '0' ==> n == 0
    decreases n
  {
    if n < 10 then [DigitChar(n)] else NatText(n / 10) + [DigitChar(n % 10)]
  }

  /** The text Java writes for an integral value: an optional minus sign and
      the decimal digits of its magnitude. */
  function IntText(n: int): (r: string)
    ensures |r| > 0 && (r[0] == '-' <==> n < 0)
    ensures forall i :: 0 < i < |r| ==> IsDigit(r[i])
  {
    if n < 0 then "-" + NatText(-n) else NatText(n)
  }

  /** Reads a string of decimal digits back as a number. */
  function ParseDigits(s: string): nat
    requires forall i :: 0 <= i < |s| ==> IsDigit(s[i])
  {
    if s == [] then 0
    else
      assert IsDigit(s[|s| - 1]);
      ParseDigits(s[..|s| - 1]) * 10 + (s[|s| - 1] as int - '0' as int)
  }

  /** Reads an optionally signed decimal number back. */
  function ParseInt(s: string): int
    requires |s| > 0
    requires s[0] == '-' ==> |s| > 1 && forall i :: 1 <= i < |s| ==> IsDigit(s[i])
    requires s[0] != '-' ==> forall i :: 0 <= i < |s| ==> IsDigit(s[i])
  {
    if s[0] == '-' then -(ParseDigits(s[1..]) as int) else ParseDigits(s)
  }

  lemma {:induction false} NatTextRoundTrip(n: nat)
    ensures ParseDigits(NatText(n)) == n
    decreases n
  {
    if n >= 10 {
      NatTextRoundTrip(n / 10);
      var s := NatText(n);
      assert s[..|s| - 1] == NatText(n / 10);
    }
  }

  /** An integer is written as an unquoted decimal text that reads back as
      the same integer. */
  lemma {:induction false} IntTextRoundTrip(n: int)
    ensures |IntText(n)| > 0 && '"' !in IntText(n)
    ensures IntText(n)[0] == '-' <==> n < 0
    ensures ParseInt(IntText(n)) == n
  {
    var t := IntText(n);
    if n < 0 {
      NatTextRoundTrip(-n);
      assert t[1..] == NatText(-n);
      assert forall i :: 1 <= i < |t| ==> t[i] == NatText(-n)[i - 1];
    } else {
      NatTextRoundTrip(n);
    }
    assert forall i :: 0 <= i < |t| ==> t[i] == '-' || IsDigit(t[i]);
  }

  // ---------------------------------------------------------------------
  // Which values the writer accepts

  /** A set call that the writer turns into output: one whose key and value
      are both non-null. */
  predicate Written(e: Entry)
  {
    e.key.Some? && !e.value.Null?
  }

  /** `routeObject` completes without throwing: no null and no value of an
      unsupported class is routed, at any depth. Null values of skipped set
      calls are never routed. */
  predicate Serializable(v: Value)
    decreases v, 2
  {
    match v
    case Null => false
    case Unsupported => false
    case List(elems) => forall i :: 0 <= i < |elems| ==> Serializable(elems[i])
    case PairV(a, b) => Serializable(a) && Serializable(b)
    case Obj(entries) => EntriesSerializable(entries)
    case _ => true
  }

  /** `object` completes on this sequence of set calls. */
  predicate EntriesSerializable(entries: seq<Entry>)
    decreases entries, 1
  {
    forall i :: 0 <= i < |entries| ==> EntrySerializable(entries[i])
  }

  /** One set call does not make `object` throw: it is skipped, or its value is routed without throwing. */
  predicate EntrySerializable(e: Entry)
    decreases e, 0
  {
    Written(e) ==> Serializable(e.value)
  }

  /** The set calls that write a pair, in call order (WrittenEntriesAppend). */
  function WrittenEntries(entries: seq<Entry>): (r: seq<Entry>)
    ensures forall i :: 0 <= i < |r| ==> Written(r[i])
    ensures |r| <= |entries|
  {
    if entries == [] then []
    else
      var last := entries[|entries| - 1];
      WrittenEntries(entries[..|entries| - 1]) + (if Written(last) then [last] else [])
  }

  /** Filtering the written calls distributes over concatenation, so the
      written calls keep their call order. */
  lemma {:induction false} WrittenEntriesAppend(a: seq<Entry>, b: seq<Entry>)
    ensures WrittenEntries(a + b) == WrittenEntries(a) + WrittenEntries(b)
    decreases |b|
  {
    if b == [] {
      assert a + b == a;
    } else {
      var init, last := b[..|b| - 1], b[|b| - 1];
      assert (a + b)[..|a + b| - 1] == a + init;
      WrittenEntriesAppend(a, init);
    }
  }

  /** A call is among the written ones exactly when it is one of the calls
      and writes a pair. */
  lemma {:induction false} WrittenEntriesMembers(entries: seq<Entry>, e: Entry)
    ensures e in WrittenEntries(entries) <==> e in entries && Written(e)
    decreases |entries|
  {
    if entries != [] {
      var init := entries[..|entries| - 1];
      WrittenEntriesMembers(init, e);
      assert entries == init + [entries[|entries| - 1]];
    }
  }

  /** A serializable object's calls without its last one, and that last one, are serializable. */
  lemma SerializableParts(entries: seq<Entry>)
    requires entries != []
    ensures EntriesSerializable(entries) <==>
      EntriesSerializable(entries[..|entries| - 1]) && EntrySerializable(entries[|entries| - 1])
  {
    var init := entries[..|entries| - 1];
    assert forall i :: 0 <= i < |init| ==> init[i] == entries[i];
  }

  // ---------------------------------------------------------------------
  // The text the writer produces

  function Quoted(st: Style, s: string): string
  {
    "\"" + st.escape(s) + "\""
  }

  /** What `routeObject(indent, v)` appends: strings and enum names in
      quotes, lists and pairs in brackets, objects in braces. */
  function RenderValue(st: Style, indent: int, v: Value): (r: string)
    requires Serializable(v)
    ensures (v.Str? || v.Enum?) ==> |r| >= 2 && r[0] == '"' && r[|r| - 1] == '"'
    ensures (v.List? || v.PairV?) ==> |r| >= 2 && r[0] == '[' && r[|r| - 1] == ']'
    ensures v.Obj? ==> |r| >= 2 && r[0] == '{' && r[|r| - 1] == '}'
    decreases v, 0, 0
  {
    match v
    case Str(s) => Quoted(st, s)
    case List(elems) =>
      "[" + NewlineText(st.pretty) + RenderElems(st, indent, elems, |elems|) + IndentText(st.pretty, indent) + "]"
    case Enum(name) => Quoted(st, name)
    case PairV(a, b) =>
      "[" + NewlineText(st.pretty) + ElemText(st, indent, a, true) + ElemText(st, indent, b, false)
      + IndentText(st.pretty, indent) + "]"
    case Obj(entries) => RenderObject(st, indent, entries)
    case Int(n) => IntText(n)
    case Char(c) => [c]
    case Float(x) => st.formatNumber(x, 7)
    case Double(x) => st.formatNumber(x, 14)
    case Bool(b) => if b then "true" else "false"
  }

  /** One element of a list at level indent+1, with its comma when another
      element follows, and a newline. */
  function ElemText(st: Style, indent: int, v: Value, more: bool): string
    requires Serializable(v)
    decreases v, 1, 0
  {
    ElemPiece(st, indent, v) + (if more then "," else "") + NewlineText(st.pretty)
  }

  /** An element's indentation at level indent+1 and its text. */
  function ElemPiece(st: Style, indent: int, v: Value): string
    requires Serializable(v)
    decreases v, 0, 1
  {
    IndentText(st.pretty, indent + 1) + RenderValue(st, indent + 1, v)
  }

  /** The first k elements of a list, as the loop over its iterator writes them. */
  function RenderElems(st: Style, indent: int, elems: seq<Value>, k: nat): string
    requires k <= |elems|
    requires forall j :: 0 <= j < k ==> Serializable(elems[j])
    decreases elems, 0, k
  {
    if k == 0 then ""
    else RenderElems(st, indent, elems, k - 1) + ElemText(st, indent, elems[k - 1], k < |elems|)
  }

  /** What `object(indent, callback)` appends for the set calls `entries`. */
  function RenderObject(st: Style, indent: int, entries: seq<Entry>): (r: string)
    requires EntriesSerializable(entries)
    ensures |r| >= 2 && r[0] == '{' && r[|r| - 1] == '}'
    ensures !st.pretty && WrittenEntries(entries) == [] ==> r == "{}"
    decreases entries, 1, 0
  {
    "{" + RenderEntries(st, indent, entries) + NewlineText(st.pretty) + IndentText(st.pretty, indent) + "}"
  }

  /** The pairs written for the set calls `entries`: a skipped call writes
      nothing, and a comma precedes every written pair after the first. */
  function RenderEntries(st: Style, indent: int, entries: seq<Entry>): (r: string)
    requires EntriesSerializable(entries)
    ensures r == "" <==> WrittenEntries(entries) == []
    decreases entries, 0, 0
  {
    if entries == [] then ""
    else
      var init, last := entries[..|entries| - 1], entries[|entries| - 1];
      SerializableParts(entries);
      RenderEntries(st, indent, init)
      + if Written(last) then (if WrittenEntries(init) == [] then "" else ",") + PairText(st, indent, last) else ""
  }

  /** One written pair at level indent+1: newline, indentation, the quoted
      escaped key, a colon, a space, and the value. */
  function PairText(st: Style, indent: int, e: Entry): string
    requires Written(e) && Serializable(e.value)
    decreases e, 0, 0
  {
    KeyText(st, indent, e.key.value) + RenderValue(st, indent + 1, e.value)
  }

  /** What precedes a pair's value: newline, indentation at level indent+1,
      the quoted escaped key, a colon and a space. */
  function KeyText(st: Style, indent: int, key: string): string
  {
    NewlineText(st.pretty) + IndentText(st.pretty, indent + 1) + "\"" + st.escape(key) + "\":" + SpaceText(st.pretty)
  }

  /** Concatenation regrouped, as one step for the solver. */
  lemma Associative(a: string, b: string, c: string)
    ensures a + b + c == a + (b + c)
  {
  }

  // ---------------------------------------------------------------------
  // Reference definitions: separators between pieces

  /** The pieces joined with `sep` between each two neighbours. */
  function Join(sep: string, pieces: seq<string>): string
  {
    if pieces == [] then ""
    else if |pieces| == 1 then pieces[0]
    else pieces[0] + sep + Join(sep, pieces[1..])
  }

  /** The text of each written pair, in call order. */
  function Pieces(st: Style, indent: int, entries: seq<Entry>): (r: seq<string>)
    requires EntriesSerializable(entries)
    ensures |r| == |WrittenEntries(entries)|
  {
    if entries == [] then []
    else
      var init, last := entries[..|entries| - 1], entries[|entries| - 1];
      SerializableParts(entries);
      Pieces(st, indent, init) + if Written(last) then [PairText(st, indent, last)] else []
  }

  /** The i-th piece is the text of the i-th written pair. */
  lemma {:induction false} PiecesContents(st: Style, indent: int, entries: seq<Entry>)
    requires EntriesSerializable(entries)
    ensures |Pieces(st, indent, entries)| == |WrittenEntries(entries)|
    ensures forall i :: 0 <= i < |WrittenEntries(entries)| ==>
      Serializable(WrittenEntries(entries)[i].value)
      && Pieces(st, indent, entries)[i] == PairText(st, indent, WrittenEntries(entries)[i])
    decreases |entries|
  {
    if entries != [] {
      var init, last := entries[..|entries| - 1], entries[|entries| - 1];
      SerializableParts(entries);
      PiecesContents(st, indent, init);
    }
  }

  /** How many times c occurs in s. */
  function Count(c: char, s: string): nat
  {
    if s == [] then 0 else Count(c, s[..|s| - 1]) + (if s[|s| - 1] == c then 1 else 0)
  }

  /** How many times c occurs in all the pieces together. */
  function CountAll(c: char, pieces: seq<string>): nat
  {
    if pieces == [] then 0 else Count(c, pieces[0]) + CountAll(c, pieces[1..])
  }

  lemma {:induction false} CountAppend(c: char, a: string, b: string)
    ensures Count(c, a + b) == Count(c, a) + Count(c, b)
    decreases |b|
  {
    if b != [] {
      CountAppend(c, a, b[..|b| - 1]);
      assert (a + b)[..|a + b| - 1] == a + b[..|b| - 1];
    } else {
      assert a + b == a;
    }
  }

  lemma {:induction false} JoinSnoc(sep: string, pieces: seq<string>, p: string)
    ensures Join(sep, pieces + [p]) == if pieces == [] then p else Join(sep, pieces) + sep + p
    decreases |pieces|
  {
    if |pieces| > 1 {
      JoinSnoc(sep, pieces[1..], p);
      assert (pieces + [p])[1..] == pieces[1..] + [p];
    } else if |pieces| == 1 {
      assert (pieces + [p])[1..] == [p];
    }
  }

  /** Joining n pieces with a one-character separator adds exactly n-1
      occurrences of it to those inside the pieces. */
  lemma {:induction false} JoinCount(c: char, pieces: seq<string>)
    requires |pieces| > 0
    ensures Count(c, Join([c], pieces)) == CountAll(c, pieces) + |pieces| - 1
    decreases |pieces|
  {
    if |pieces| > 1 {
      JoinCount(c, pieces[1..]);
      CountAppend(c, pieces[0] + [c], Join([c], pieces[1..]));
      CountAppend(c, pieces[0], [c]);
      assert Count(c, [c]) == 1 by {
        var one: string := [c];
        assert one[..0] == [];
      }
    } else {
      assert CountAll(c, pieces[1..]) == 0;
    }
  }

  // ---------------------------------------------------------------------
  // Properties of object output

  /** The object body is the written pairs joined by commas: no comma before
      the first written pair, one before each later one, nothing for a
      skipped call. */
  lemma {:induction false} RenderEntriesIsJoin(st: Style, indent: int, entries: seq<Entry>)
    requires EntriesSerializable(entries)
    ensures RenderEntries(st, indent, entries) == Join(",", Pieces(st, indent, entries))
    decreases |entries|
  {
    if entries != [] {
      var init, last := entries[..|entries| - 1], entries[|entries| - 1];
      SerializableParts(entries);
      RenderEntriesIsJoin(st, indent, init);
      var pieces := Pieces(st, indent, init);
      if Written(last) {
        var p := PairText(st, indent, last);
        assert Pieces(st, indent, entries) == pieces + [p];
        assert RenderEntries(st, indent, entries) == RenderEntries(st, indent, init) + ((if pieces == [] then "" else ",") + p);
        CommaStep(pieces, p);
      } else {
        assert Pieces(st, indent, entries) == pieces + [] == pieces;
        assert RenderEntries(st, indent, entries) == RenderEntries(st, indent, init) + "" == RenderEntries(st, indent, init);
      }
    }
  }

  /** One more set call extends the object body by its pair, if it writes one. */
  lemma RenderEntriesSnoc(st: Style, indent: int, entries: seq<Entry>, i: nat)
    requires i < |entries| && EntriesSerializable(entries[..i + 1])
    ensures EntriesSerializable(entries[..i])
    ensures WrittenEntries(entries[..i + 1]) == WrittenEntries(entries[..i]) + (if Written(entries[i]) then [entries[i]] else [])
    ensures Written(entries[i]) ==> Serializable(entries[i].value)
    ensures RenderEntries(st, indent, entries[..i + 1]) == RenderEntries(st, indent, entries[..i])
      + if Written(entries[i])
        then (if WrittenEntries(entries[..i]) == [] then "" else ",") + PairText(st, indent, entries[i])
        else ""
  {
    SerializableParts(entries[..i + 1]);
    assert entries[..i + 1][..i] == entries[..i] && entries[..i + 1][i] == entries[i];
  }

  /** Appending a piece after a comma (none before the first) extends the join. */
  lemma CommaStep(pieces: seq<string>, p: string)
    ensures Join(",", pieces) + ((if pieces == [] then "" else ",") + p) == Join(",", pieces + [p])
  {
    JoinSnoc(",", pieces, p);
  }

  /** An object with n > 0 written pairs has exactly n-1 commas of its own:
      the commas of its text are those inside its pairs plus n-1. */
  lemma {:induction false} ObjectCommaCount(st: Style, indent: int, entries: seq<Entry>)
    requires EntriesSerializable(entries)
    requires |WrittenEntries(entries)| > 0
    ensures var n := |WrittenEntries(entries)|;
      Count(',', RenderObject(st, indent, entries))
        == CountAll(',', Pieces(st, indent, entries)) + n - 1
  {
    RenderEntriesIsJoin(st, indent, entries);
    JoinCount(',', Pieces(st, indent, entries));
    var body := RenderEntries(st, indent, entries);
    var nl, ind := NewlineText(st.pretty), IndentText(st.pretty, indent);
    NoCommaIn("{");
    NoCommaIn(nl);
    NoCommaIn(ind);
    NoCommaIn("}");
    CountAppend(',', "{", body);
    CountAppend(',', "{" + body, nl);
    CountAppend(',', "{" + body + nl, ind);
    CountAppend(',', "{" + body + nl + ind, "}");
  }

  /** A string of layout characters and braces holds no comma. */
  lemma {:induction false} NoCommaIn(s: string)
    requires forall i :: 0 <= i < |s| ==> s[i] != ','
    ensures Count(',', s) == 0
    decreases |s|
  {
    if s != [] {
      NoCommaIn(s[..|s| - 1]);
    }
  }

  /** A set call with a null key or a null value writes nothing and does not
      use up the "first pair" slot: removing it leaves the object unchanged. */
  lemma {:induction false} SkippedEntryWritesNothing(st: Style, indent: int, entries: seq<Entry>, i: nat)
    requires i < |entries| && !Written(entries[i])
    requires EntriesSerializable(entries)
    ensures EntriesSerializable(entries[..i] + entries[i + 1..])
    ensures RenderObject(st, indent, entries) == RenderObject(st, indent, entries[..i] + entries[i + 1..])
  {
    var rest := entries[..i] + entries[i + 1..];
    assert EntriesSerializable(rest) by {
      forall j | 0 <= j < |rest| ensures EntrySerializable(rest[j]) {
        if j < i { assert rest[j] == entries[j]; } else { assert rest[j] == entries[j + 1]; }
      }
    }
    PiecesSkip(st, indent, entries, i);
    RenderEntriesIsJoin(st, indent, entries);
    RenderEntriesIsJoin(st, indent, rest);
    assert RenderEntries(st, indent, entries) == RenderEntries(st, indent, rest);
  }

  /** Removing a skipped call leaves the written calls, and their text, as they were. */
  lemma PiecesSkip(st: Style, indent: int, entries: seq<Entry>, i: nat)
    requires i < |entries| && !Written(entries[i])
    requires EntriesSerializable(entries) && EntriesSerializable(entries[..i] + entries[i + 1..])
    ensures Pieces(st, indent, entries) == Pieces(st, indent, entries[..i] + entries[i + 1..])
  {
    var a, e, b := entries[..i], entries[i], entries[i + 1..];
    assert entries == (a + [e]) + b;
    SerializableAppend(a + [e], b);
    SerializableAppend(a, [e]);
    PiecesAppend(st, indent, a + [e], b);
    PiecesAppend(st, indent, a, b);
    assert (a + [e])[..|a|] == a;
    assert Pieces(st, indent, a + [e]) == Pieces(st, indent, a) + [] == Pieces(st, indent, a);
  }

  /** Two runs of calls are serializable together exactly when each is. */
  lemma SerializableAppend(a: seq<Entry>, b: seq<Entry>)
    ensures EntriesSerializable(a + b) <==> EntriesSerializable(a) && EntriesSerializable(b)
  {
    assert forall j :: 0 <= j < |a| ==> (a + b)[j] == a[j];
    assert forall j :: 0 <= j < |b| ==> (a + b)[|a| + j] == b[j];
  }

  /** The pieces of two runs of calls are the pieces of each, in order. */
  lemma {:induction false} PiecesAppend(st: Style, indent: int, a: seq<Entry>, b: seq<Entry>)
    requires EntriesSerializable(a) && EntriesSerializable(b) && EntriesSerializable(a + b)
    ensures Pieces(st, indent, a + b) == Pieces(st, indent, a) + Pieces(st, indent, b)
    decreases |b|
  {
    if b == [] {
      assert a + b == a;
    } else {
      var init := b[..|b| - 1];
      SerializableParts(b);
      SerializableParts(a + b);
      assert (a + b)[..|a + b| - 1] == a + init;
      PiecesAppend(st, indent, a, init);
    }
  }

  // ---------------------------------------------------------------------
  // Properties of list and scalar output

  /** With a separator of a comma and a newline, the first k elements of a
      list are the joined element texts, followed by the separator when more
      elements follow and by a newline after the last. */
  lemma {:induction false} RenderElemsIsJoin(st: Style, indent: int, elems: seq<Value>, k: nat)
    requires k <= |elems|
    requires forall j :: 0 <= j < |elems| ==> Serializable(elems[j])
    ensures RenderElems(st, indent, elems, k) ==
      Join("," + NewlineText(st.pretty), ElemPieces(st, indent, elems[..k]))
      + (if k == 0 then "" else if k < |elems| then "," + NewlineText(st.pretty) else NewlineText(st.pretty))
    decreases k
  {
    if k > 0 {
      RenderElemsIsJoin(st, indent, elems, k - 1);
      var nl := NewlineText(st.pretty);
      var pieces := ElemPieces(st, indent, elems[..k - 1]);
      var p := ElemPiece(st, indent, elems[k - 1]);
      assert elems[..k][..k - 1] == elems[..k - 1];
      assert ElemPieces(st, indent, elems[..k]) == pieces + [p];
      JoinStep("," + nl, nl, pieces, p, k < |elems|);
    }
  }

  /** Appending one element's text to a joined prefix extends the join. */
  lemma JoinStep(sep: string, nl: string, pieces: seq<string>, p: string, more: bool)
    requires sep == "," + nl
    ensures Join(sep, pieces) + (if pieces == [] then "" else sep) + (p + (if more then "," else "") + nl)
      == Join(sep, pieces + [p]) + (if more then sep else nl)
  {
    JoinSnoc(sep, pieces, p);
  }

  /** The text of each element at level indent+1. */
  function ElemPieces(st: Style, indent: int, elems: seq<Value>): (r: seq<string>)
    requires forall j :: 0 <= j < |elems| ==> Serializable(elems[j])
    ensures |r| == |elems|
  {
    if elems == [] then []
    else
      ElemPieces(st, indent, elems[..|elems| - 1]) + [ElemPiece(st, indent, elems[|elems| - 1])]
  }

  /** The i-th piece is the text of the i-th element. */
  lemma {:induction false} ElemPiecesContents(st: Style, indent: int, elems: seq<Value>)
    requires forall j :: 0 <= j < |elems| ==> Serializable(elems[j])
    ensures forall i :: 0 <= i < |elems| ==> ElemPieces(st, indent, elems)[i] == ElemPiece(st, indent, elems[i])
    decreases |elems|
  {
    if elems != [] {
      ElemPiecesContents(st, indent, elems[..|elems| - 1]);
    }
  }

  /** A list is `[`, its elements in order at level indent+1 separated by
      commas, then `]`; without pretty printing, exactly the element texts
      joined by commas between brackets. */
  lemma ListShape(st: Style, indent: int, elems: seq<Value>)
    requires Serializable(List(elems))
    ensures RenderValue(st, indent, List(elems)) ==
      "[" + NewlineText(st.pretty)
      + (Join("," + NewlineText(st.pretty), ElemPieces(st, indent, elems)) + (if elems == [] then "" else NewlineText(st.pretty)))
      + IndentText(st.pretty, indent) + "]"
    ensures !st.pretty ==> RenderValue(st, indent, List(elems)) == "[" + Join(",", ElemPieces(st, indent, elems)) + "]"
  {
    RenderElemsIsJoin(st, indent, elems, |elems|);
    assert elems[..|elems|] == elems;
    if !st.pretty {
      var joined := Join(",", ElemPieces(st, indent, elems));
      assert "," + NewlineText(st.pretty) == ",";
      assert IndentText(st.pretty, indent) == "" && NewlineText(st.pretty) == "";
      assert "[" + "" + (joined + "") + "" + "]" == "[" + joined + "]";
    }
  }

  /** A Pair is written exactly as the two-element list [first, second]. */
  lemma PairIsList(st: Style, indent: int, a: Value, b: Value)
    requires Serializable(a) && Serializable(b)
    ensures Serializable(List([a, b]))
    ensures RenderValue(st, indent, PairV(a, b)) == RenderValue(st, indent, List([a, b]))
  {
    var elems := [a, b];
    assert elems[0] == a && elems[1] == b;
    var ea, eb := ElemText(st, indent, a, true), ElemText(st, indent, b, false);
    var open, close := "[" + NewlineText(st.pretty), IndentText(st.pretty, indent) + "]";
    assert RenderElems(st, indent, elems, 1) == ea;
    assert RenderElems(st, indent, elems, 2) == ea + eb;
    assert RenderValue(st, indent, PairV(a, b)) == open + ea + eb + close;
    assert RenderValue(st, indent, List(elems)) == open + (ea + eb) + close;
  }

  /** Strings and enum names are quoted escaped text; integers are unquoted
      decimal text; booleans are `true`/`false`; a character is written bare. */
  lemma ScalarShapes(st: Style, indent: int, v: Value)
    requires v.Str? || v.Enum? || v.Int? || v.Bool? || v.Char?
    ensures v.Str? ==> RenderValue(st, indent, v) == "\"" + st.escape(v.s) + "\""
    ensures v.Enum? ==> RenderValue(st, indent, v) == "\"" + st.escape(v.name) + "\""
    ensures v.Int? ==> '"' !in RenderValue(st, indent, v) && ParseInt(RenderValue(st, indent, v)) == v.n
    ensures v.Bool? ==> RenderValue(st, indent, v) == if v.b then "true" else "false"
    ensures v.Char? ==> RenderValue(st, indent, v) == [v.c]
  {
    if v.Int? {
      IntTextRoundTrip(v.n);
    }
  }

  /** A value of unsupported kind, or null, is refused wherever it is routed:
      as a value itself, inside a list or pair, or as the value of a written
      pair; a skipped pair is never routed. */
  lemma UnsupportedIsRefused(v: Value, others: seq<Value>, key: string)
    requires v.Unsupported? || v.Null?
    ensures !Serializable(v)
    ensures !Serializable(List(others + [v]))
    ensures !Serializable(PairV(v, Str(key))) && !Serializable(PairV(Str(key), v))
    ensures v.Unsupported? ==> !Serializable(Obj([Entry(Some(key), v)]))
    ensures Serializable(Obj([Entry(None, v)]))
  {
    assert (others + [v])[|others|] == v;
    assert [Entry(Some(key), v)][0] == Entry(Some(key), v);
    assert [Entry(None, v)][0] == Entry(None, v);
    assert EntrySerializable(Entry(None, v));
    assert !EntrySerializable(Entry(Some(key), v)) <== v.Unsupported?;
  }

  // ---------------------------------------------------------------------
  // Sizes, for the termination of the writer's methods

  ghost function Size(v: Value): nat
    decreases v, 2
  {
    match v
    case List(elems) => 1 + ListSize(elems)
    case PairV(a, b) => 4 + Size(a) + Size(b)
    case Obj(entries) => 1 + EntriesSize(entries)
    case _ => 1
  }

  ghost function ListSize(elems: seq<Value>): nat
    decreases elems, 1
  {
    if elems == [] then 0 else ListSize(elems[..|elems| - 1]) + Size(elems[|elems| - 1]) + 1
  }

  ghost function EntriesSize(entries: seq<Entry>): nat
    decreases entries, 1
  {
    if entries == [] then 0 else EntriesSize(entries[..|entries| - 1]) + EntrySize(entries[|entries| - 1])
  }

  ghost function EntrySize(e: Entry): nat
    decreases e, 0
  {
    Size(e.value) + 1
  }

  lemma {:induction false} ElemSmaller(elems: seq<Value>, i: nat)
    requires i < |elems|
    ensures Size(elems[i]) < ListSize(elems)
    decreases |elems|
  {
    if i < |elems| - 1 {
      ElemSmaller(elems[..|elems| - 1], i);
    }
  }

  lemma {:induction false} EntrySmaller(entries: seq<Entry>, i: nat)
    requires i < |entries|
    ensures EntrySize(entries[i]) <= EntriesSize(entries)
    decreases |entries|
  {
    if i < |entries| - 1 {
      EntrySmaller(entries[..|entries| - 1], i);
    }
  }

  // ---------------------------------------------------------------------
  // The writer

  /** JSONWriter: appends to its output as it goes. */
  class JsonWriter {
    /** Everything written to the PrintWriter so far. */
    var out: string
    const style: Style

    constructor (style: Style)
      ensures this.style == style && out == ""
    {
      this.style := style;
      out := "";
    }

    /** indent(num). */
    method Indent(num: int)
      modifies this`out
      ensures out == old(out) + IndentText(style.pretty, num)
    {
      if style.pretty {
        var i := 0;
        while i < num
          invariant 0 <= i && (num > 0 ==> i <= num) && (num <= 0 ==> i == 0)
          invariant out == old(out) + IndentText(true, i)
        {
          out := out + IndentChar;
          i := i + 1;
        }
      } else {
        assert out == old(out) + "";
      }
    }

    /** space(). */
    method Space()
      modifies this`out
      ensures out == old(out) + SpaceText(style.pretty)
    {
      if style.pretty {
        out := out + " ";
      }
    }

    /** newline(). */
    method Newline()
      modifies this`out
      ensures out == old(out) + NewlineText(style.pretty)
    {
      if style.pretty {
        out := out + "\n";
      }
    }

    /** routeObject(indent, value): writes the value, or reports (false) the
        exception the source throws for null or an unsupported class, in
        which case what was written before it is left unspecified. */
    method RouteObject(indent: int, v: Value) returns (ok: bool)
      modifies this`out
      ensures ok == Serializable(v)
      ensures ok ==> out == old(out) + RenderValue(style, indent, v)
      decreases Size(v), 1
    {
      match v
      case Str(s) =>
        out := out + "\"";
        out := out + style.escape(s);
        out := out + "\"";
        ok := true;
      case List(elems) =>
        ok := Collection(indent, elems);
      case Enum(name) =>
        out := out + "\"";
        out := out + style.escape(name);
        out := out + "\"";
        ok := true;
      case PairV(a, b) =>
        assert [a, b][..1] == [a] && [a][..0] == [] && [a, b][0] == a && [a, b][1] == b;
        assert ListSize([a]) == Size(a) + 1;
        assert ListSize([a, b]) == Size(a) + Size(b) + 2;
        ok := RouteObject(indent, List([a, b]));
        if ok {
          PairIsList(style, indent, a, b);
        }
      case Obj(entries) =>
        ok := Object(indent, entries);
      case Int(n) =>
        out := out + IntText(n);
        ok := true;
      case Char(c) =>
        out := out + [c];
        ok := true;
      case Float(x) =>
        out := out + style.formatNumber(x, 7);
        ok := true;
      case Double(x) =>
        out := out + style.formatNumber(x, 14);
        ok := true;
      case Bool(b) =>
        out := out + (if b then "true" else "false");
        ok := true;
      case Null =>
        ok := false;
      case Unsupported =>
        ok := false;
    }

    /** The Collection branch of routeObject: `[`, then each element at
        level indent+1 followed by a comma while the iterator has more, then
        the closing `]`. */
    method Collection(indent: int, elems: seq<Value>) returns (ok: bool)
      modifies this`out
      ensures ok == Serializable(List(elems))
      ensures ok ==> out == old(out) + RenderValue(style, indent, List(elems))
      decreases 1 + ListSize(elems), 0
    {
      out := out + "[";
      Newline();
      var i := 0;
      while i < |elems|
        invariant 0 <= i <= |elems|
        invariant forall j :: 0 <= j < i ==> Serializable(elems[j])
        invariant out == old(out) + "[" + NewlineText(style.pretty) + RenderElems(style, indent, elems, i)
      {
        ghost var prefix := old(out) + "[" + NewlineText(style.pretty);
        ElemSmaller(elems, i);
        var elemOk := Element(indent, elems[i], i + 1 < |elems|);
        if !elemOk {
          return false;
        }
        Associative(prefix, RenderElems(style, indent, elems, i), ElemText(style, indent, elems[i], i + 1 < |elems|));
        i := i + 1;
      }
      ghost var open := "[" + NewlineText(style.pretty);
      ghost var body := RenderElems(style, indent, elems, |elems|);
      Associative(old(out), "[", NewlineText(style.pretty));
      Associative(old(out), open, body);
      Indent(indent);
      Associative(old(out), open + body, IndentText(style.pretty, indent));
      out := out + "]";
      Associative(old(out), open + body + IndentText(style.pretty, indent), "]");
      ok := true;
    }

    /** One pass of the Collection loop: the indentation, the element, a
        comma while the iterator has more, and a newline. */
    method Element(indent: int, v: Value, more: bool) returns (ok: bool)
      modifies this`out
      ensures ok == Serializable(v)
      ensures ok ==> out == old(out) + ElemText(style, indent, v, more)
      decreases Size(v), 2
    {
      Indent(indent + 1);
      ok := RouteObject(indent + 1, v);
      if !ok {
        return;
      }
      ghost var piece := ElemPiece(style, indent, v);
      Associative(old(out), IndentText(style.pretty, indent + 1), RenderValue(style, indent + 1, v));
      ghost var comma := if more then "," else "";
      if more {
        out := out + ",";
      } else {
        assert out == out + comma;
      }
      Associative(old(out), piece, comma);
      Newline();
      Associative(old(out), piece + comma, NewlineText(style.pretty));
    }

    /** object(indent, callback), the callback given as the set calls it
        makes: `{`, each call handed to `set`, then a newline, the
        indentation and `}`. */
    method Object(indent: int, entries: seq<Entry>) returns (ok: bool)
      modifies this`out
      ensures ok == EntriesSerializable(entries)
      ensures ok ==> out == old(out) + RenderObject(style, indent, entries)
      decreases 1 + EntriesSize(entries), 0
    {
      out := out + "{";
      ghost var start := old(out) + "{";
      var firstCall := true;
      var i := 0;
      while i < |entries|
        invariant 0 <= i <= |entries|
        invariant EntriesSerializable(entries[..i])
        invariant firstCall == (WrittenEntries(entries[..i]) == [])
        invariant out == start + RenderEntries(style, indent, entries[..i])
      {
        var e := entries[i];
        ghost var before := out;
        EntrySmaller(entries, i);
        var setOk := Set(indent, firstCall, e);
        if !setOk {
          assert !EntrySerializable(entries[i]);
          return false;
        }
        SerializableParts(entries[..i + 1]);
        assert entries[..i + 1][..i] == entries[..i] && entries[..i + 1][i] == e;
        RenderEntriesSnoc(style, indent, entries, i);
        if Written(e) {
          Associative(start, RenderEntries(style, indent, entries[..i]), (if firstCall then "" else ",") + PairText(style, indent, e));
        } else {
          assert RenderEntries(style, indent, entries[..i + 1]) == RenderEntries(style, indent, entries[..i]) + "";
        }
        firstCall := firstCall && !Written(e);
        i := i + 1;
      }
      assert entries[..i] == entries;
      ghost var body := RenderEntries(style, indent, entries);
      Newline();
      Associative(old(out), "{", body);
      Associative(old(out), "{" + body, NewlineText(style.pretty));
      Indent(indent);
      Associative(old(out), "{" + body + NewlineText(style.pretty), IndentText(style.pretty, indent));
      out := out + "}";
      Associative(old(out), "{" + body + NewlineText(style.pretty) + IndentText(style.pretty, indent), "}");
      ok := true;
    }

    /** The Writer that object hands its callback, `set(key, value)`: skips
        a null key or value; otherwise a comma unless this is the first
        pair, a newline, the indentation, the quoted escaped key, a colon,
        a space and the value. */
    method Set(indent: int, firstCall: bool, e: Entry) returns (ok: bool)
      modifies this`out
      ensures ok == EntrySerializable(e)
      ensures ok && !Written(e) ==> out == old(out)
      ensures ok && Written(e) ==> out == old(out) + ((if firstCall then "" else ",") + PairText(style, indent, e))
      decreases EntrySize(e), 0
    {
      if e.key.Some? && !e.value.Null? {
        if !firstCall {
          out := out + ",";
        }
        ghost var start := out;
        assert start == old(out) + (if firstCall then "" else ",");
        Key(indent, e.key.value);
        ok := RouteObject(indent + 1, e.value);
        if ok {
          Associative(start, KeyText(style, indent, e.key.value), RenderValue(style, indent + 1, e.value));
          Associative(old(out), if firstCall then "" else ",", PairText(style, indent, e));
        }
      } else {
        ok := true;
      }
    }

    /** The part of `set` before the value: newline, indentation, the quoted
        escaped key, a colon and a space. */
    method Key(indent: int, key: string)
      modifies this`out
      ensures out == old(out) + KeyText(style, indent, key)
    {
      ghost var nl, ind, esc := NewlineText(style.pretty), IndentText(style.pretty, indent + 1), style.escape(key);
      Newline();
      Indent(indent + 1);
      Associative(old(out), nl, ind);
      out := out + "\"";
      Associative(old(out), nl + ind, "\"");
      out := out + style.escape(key);
      Associative(old(out), nl + ind + "\"", esc);
      out := out + "\":";
      Associative(old(out), nl + ind + "\"" + esc, "\":");
      Space();
      Associative(old(out), nl + ind + "\"" + esc + "\":", SpaceText(style.pretty));
    }

    /** object(callback): an object at the outermost level. */
    method TopLevelObject(entries: seq<Entry>) returns (ok: bool)
      modifies this`out
      ensures ok == EntriesSerializable(entries)
      ensures ok ==> out == old(out) + RenderObject(style, 0, entries)
    {
      ok := Object(0, entries);
    }
  }
}
