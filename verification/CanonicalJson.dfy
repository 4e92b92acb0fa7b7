/** Canonical JSON printing over UTF-16 code units. Printed text is what a JSON reader reads back: the same value, its
    members in code-unit order, with nothing escaped that need not be. So it is a normal form: two values print
    the same exactly when they mean the same, with objects as unordered maps. */
module CanonicalJson {
  import opened Wrappers
  import opened JsonValue
  import opened JsonReader

  // ---- strings: section 7 of RFC 8259, with lone surrogates escaped ----

  const QUOTE: Unit := 34
  const BACKSLASH: Unit := 92
  const COMMA: Unit := 44
  const COLON: Unit := 58
  const MINUS: Unit := 45

  predicate IsHigh(u: Unit) { 0xD800 <= u <= 0xDBFF }
  predicate IsLow(u: Unit) { 0xDC00 <= u <= 0xDFFF }

  /** A surrogate that is not half of a pair. */
  predicate IsLone(s: Text, i: nat)
    requires i < |s|
  {
    || (IsHigh(s[i]) && !(i + 1 < |s| && IsLow(s[i + 1])))
    || (IsLow(s[i]) && !(i > 0 && IsHigh(s[i - 1])))
  }

  function HexDigit(d: nat): Unit
    requires d < 16
  {
    if d < 10 then 48 + d else 87 + d
  }

  function Hex4(u: Unit): Text {
    [HexDigit(u / 4096), HexDigit(u / 256 % 16), HexDigit(u / 16 % 16), HexDigit(u % 16)]
  }

  /** The letter of the short escapes, 0 for none. */
  function ShortEscape(u: Unit): Unit {
    if u == 8 then 98 else if u == 9 then 116 else if u == 10 then 110 else if u == 12 then 102 else if u == 13 then 114
    else if u == QUOTE || u == BACKSLASH then u else 0
  }

  function EscapeUnit(s: Text, i: nat): Text
    requires i < |s|
  {
    if ShortEscape(s[i]) != 0 then [BACKSLASH, ShortEscape(s[i])]
    else if s[i] < 32 || IsLone(s, i) then [BACKSLASH, 117] + Hex4(s[i])
    else [s[i]]
  }

  function EscapeFrom(s: Text, i: nat): Text
    requires i <= |s|
    decreases |s| - i
  {
    if i == |s| then [] else EscapeUnit(s, i) + EscapeFrom(s, i + 1)
  }

  function Quote(s: Text): Text { [QUOTE] + EscapeFrom(s, 0) + [QUOTE] }

  lemma HexReads(u: Unit)
    ensures ReadHex(Hex4(u)) == Some(u)
  {
    Decompose(u);
    DigitReads(u / 4096);
    DigitReads(u / 256 % 16);
    DigitReads(u / 16 % 16);
    DigitReads(u % 16);
  }

  lemma DigitReads(d: nat)
    requires d < 16
    ensures HexValue(HexDigit(d)) == Some(d)
  {
  }

  lemma Decompose(u: Unit)
    ensures u == 4096 * (u / 4096) + 256 * (u / 256 % 16) + 16 * (u / 16 % 16) + u % 16
  {
    assert u / 16 == 16 * (u / 256) + u / 16 % 16;
    assert u / 256 == 16 * (u / 4096) + u / 256 % 16;
  }

  /** An escaped unit is read back, whatever its neighbours and whatever follows. */
  lemma UnitReads(s: Text, i: nat, tail: Text)
    requires i < |s|
    ensures EscapeUnit(s, i) != [] && EscapeUnit(s, i)[0] != QUOTE
    ensures ReadUnit(EscapeUnit(s, i) + tail) == Some(Reading(s[i], tail))
  {
    hide HexDigit, ReadHex;
    var e := EscapeUnit(s, i);
    var t := e + tail;
    assert t[0] == e[0] && t[|e|..] == tail;
    if e[0] == BACKSLASH {
      assert t[1] == e[1];
      if e[1] == 117 {
        HexReads(s[i]);
        assert t[2..6] == e[2..] == Hex4(s[i]);
      }
    }
  }

  lemma {:induction false} CharsRead(s: Text, i: nat, tail: Text)
    requires i <= |s|
    ensures ReadChars(EscapeFrom(s, i) + ([QUOTE] + tail)) == Some(Reading(s[i..], tail))
    decreases |s| - i
  {
    hide EscapeUnit, ReadUnit;
    var t := EscapeFrom(s, i) + ([QUOTE] + tail);
    if i == |s| {
      assert t == [QUOTE] + tail && t[1..] == tail && s[i..] == [];
    } else {
      var others := EscapeFrom(s, i + 1) + ([QUOTE] + tail);
      assert t == EscapeUnit(s, i) + others;
      UnitReads(s, i, others);
      CharsRead(s, i + 1, tail);
      assert s[i..] == [s[i]] + s[i + 1..];
    }
  }

  /** A quoted string is read back unit by unit, lone surrogates included. */
  lemma QuoteReads(s: Text, tail: Text)
    ensures ReadString(Quote(s) + tail) == Some(Reading(s, tail))
  {
    hide EscapeFrom, ReadChars;
    assert (Quote(s) + tail)[1..] == EscapeFrom(s, 0) + ([QUOTE] + tail);
    CharsRead(s, 0, tail);
    assert s[0..] == s;
  }

  /** Nothing is escaped that need not be, and everything in one way only: quotes and backslashes by a backslash, five
      control characters by a letter, the other control characters and lone surrogates by four digits in lower case. */
  lemma EscapesAreMinimal(s: Text, i: nat)
    requires i < |s|
    ensures EscapeUnit(s, i) == [s[i]] <==>
            s[i] >= 0x20 && s[i] != '"' as int && s[i] != '\\' as int && !IsLone(s, i)
    ensures EscapeUnit(s, i) != [s[i]] ==>
              var e := EscapeUnit(s, i);
              && (s[i] in {'"' as int, '\\' as int, 0x08, 0x09, 0x0A, 0x0C, 0x0D} ==> |e| == 2 && e[1] != '/' as int)
              && (s[i] !in {'"' as int, '\\' as int, 0x08, 0x09, 0x0A, 0x0C, 0x0D} ==>
                    && |e| == 6
                    && forall k :: 2 <= k < 6 ==>
                         '0' as int <= e[k] <= '9' as int || 'a' as int <= e[k] <= 'f' as int)
  {
    DigitsAreLower(s[i] / 4096);
    DigitsAreLower(s[i] / 256 % 16);
    DigitsAreLower(s[i] / 16 % 16);
    DigitsAreLower(s[i] % 16);
  }

  lemma DigitsAreLower(d: nat)
    requires d < 16
    ensures '0' as int <= HexDigit(d) <= '9' as int || 'a' as int <= HexDigit(d) <= 'f' as int
  {
  }

  // ---- numbers ----

  function Digits(n: nat): Text
    decreases n
  {
    if n < 10 then [48 + n] else Digits(n / 10) + [48 + n % 10]
  }

  function Number(n: int): Text { if n < 0 then [MINUS] + Digits(-n) else Digits(n) }

  /** What may come after a value: nothing, a comma, or a closing bracket. */
  predicate Follows(s: Text) { s == [] || s[0] in {COMMA, 93, 125} }

  /** Digits of a number: without a leading zero, and denoting the number. */
  lemma {:induction false} DigitsRead(n: nat)
    ensures Digits(n) != [] && AllDigits(Digits(n)) && Positional(Digits(n)) == n
    ensures At(Digits(n), '0') <==> n == 0
    ensures At(Digits(n), '0') ==> |Digits(n)| == 1
  {
    if n >= 10 {
      DigitsRead(n / 10);
      assert Digits(n)[..|Digits(n)| - 1] == Digits(n / 10);
    } else {
      assert Digits(n)[..0] == [];
    }
  }

  lemma {:induction false} RunEnds(digits: Text, tail: Text)
    requires AllDigits(digits) && (tail == [] || !JsonReader.IsDigit(tail[0]))
    ensures RunLength(digits + tail) == |digits|
  {
    if digits == [] {
      assert digits + tail == tail;
    } else {
      RunEnds(digits[1..], tail);
      assert (digits + tail)[1..] == digits[1..] + tail;
    }
  }

  lemma NumberReads(n: SafeInteger, tail: Text)
    requires Follows(tail)
    ensures ReadNumber(Number(n) + tail) == Some(Reading(Num(n), tail))
    ensures Number(n) != [] && (IsDigit(Number(n)[0]) || At(Number(n), '-'))
  {
    hide Digits, Positional, RunLength;
    var m := if n < 0 then -n else n;
    DigitsRead(m);
    RunEnds(Digits(m), tail);
    var s, t := Number(n) + tail, Digits(m) + tail;
    assert s[0] == Number(n)[0] && t[0] == Digits(m)[0];
    assert n < 0 ==> s[1..] == t;
    assert t[..|Digits(m)|] == Digits(m) && t[|Digits(m)|..] == tail;
  }

  // ---- values ----

  /** A printed property, before the properties are put in order. */
  datatype Field = Field(key: Text, text: Text)

  /** Code-unit order. */
  predicate Less(a: Text, b: Text) {
    b != [] && (a == [] || a[0] < b[0] || (a[0] == b[0] && Less(a[1..], b[1..])))
  }

  function Insert(f: Field, fields: seq<Field>): seq<Field> {
    if fields == [] || Less(f.key, fields[0].key) then [f] + fields else [fields[0]] + Insert(f, fields[1..])
  }

  function Sort(fields: seq<Field>): seq<Field> {
    if fields == [] then [] else Insert(fields[|fields| - 1], Sort(fields[..|fields| - 1]))
  }

  function Join(texts: seq<Text>): Text {
    if texts == [] then [] else if |texts| == 1 then texts[0] else texts[0] + ([COMMA] + Join(texts[1..]))
  }

  function Member(f: Field): Text { Quote(f.key) + [COLON] + f.text }

  function Members(fields: seq<Field>): (r: seq<Text>)
    ensures |r| == |fields| && forall k :: 0 <= k < |r| ==> r[k] == Member(fields[k])
  {
    if fields == [] then [] else [Member(fields[0])] + Members(fields[1..])
  }

  const NULL: Text := [110, 117, 108, 108]
  const TRUE: Text := [116, 114, 117, 101]
  const FALSE: Text := [102, 97, 108, 115, 101]

  function Print(v: Json): Text
    decreases v
  {
    match v
    case Null => NULL
    case Bool(b) => if b then TRUE else FALSE
    case Num(n) => Number(n)
    case Str(s) => Quote(s)
    case Arr(items) => [91] + Join(PrintItems(items)) + [93]
    case Obj(entries) => [123] + Join(Members(Sort(PrintEntries(entries)))) + [125]
    case Undefined => []
  }

  function PrintItems(items: seq<Json>): (r: seq<Text>)
    ensures |r| == |items| && forall k :: 0 <= k < |items| ==> r[k] == Print(items[k])
    decreases items
  {
    if items == [] then [] else PrintItems(items[..|items| - 1]) + [Print(items[|items| - 1])]
  }

  function PrintEntries(entries: seq<Entry>): (r: seq<Field>)
    ensures |r| == |entries|
    ensures forall k :: 0 <= k < |entries| ==> r[k] == Field(entries[k].key, Print(entries[k].value))
    decreases entries
  {
    if entries == [] then []
    else
      var last := entries[|entries| - 1];
      PrintEntries(entries[..|entries| - 1]) + [Field(last.key, Print(last.value))]
  }

  /** The printed text, or a type error when something undefined turns up. */
  function Canonicalize(v: Json): Option<Text> {
    if Defined(v) then Some(Print(v)) else None
  }

  // ---- sorting ----

  lemma {:induction false} LessTotal(a: Text, b: Text)
    ensures Less(a, b) || a == b || Less(b, a)
    ensures !(Less(a, b) && Less(b, a)) && !Less(a, a)
  {
    if a != [] && b != [] {
      LessTotal(a[1..], b[1..]);
      assert a == [a[0]] + a[1..] && b == [b[0]] + b[1..];
    }
    if a != [] { LessTotal(a[1..], a[1..]); }
  }

  lemma {:induction false} LessTransitive(a: Text, b: Text, c: Text)
    requires Less(a, b) && Less(b, c)
    ensures Less(a, c)
  {
    if a != [] && a[0] == b[0] == c[0] { LessTransitive(a[1..], b[1..], c[1..]); }
  }

  ghost predicate Sorted(fields: seq<Field>) {
    forall i, j :: 0 <= i < j < |fields| ==> Less(fields[i].key, fields[j].key)
  }

  ghost predicate SameFields(a: seq<Field>, b: seq<Field>) { forall f :: f in a <==> f in b }

  ghost predicate KeysDiffer(fields: seq<Field>) {
    forall i, j :: 0 <= i < j < |fields| ==> fields[i].key != fields[j].key
  }

  lemma {:induction false} InsertSorts(f: Field, fields: seq<Field>)
    requires Sorted(fields) && forall k :: 0 <= k < |fields| ==> fields[k].key != f.key
    ensures Sorted(Insert(f, fields)) && forall g :: g in Insert(f, fields) <==> g == f || g in fields
  {
    hide Less;
    if fields != [] {
      var rest := fields[1..];
      assert fields == [fields[0]] + rest;
      if Less(f.key, fields[0].key) {
        forall j | 0 <= j < |fields| ensures Less(f.key, fields[j].key) {
          if j > 0 { LessTransitive(f.key, fields[0].key, fields[j].key); }
        }
      } else {
        LessTotal(f.key, fields[0].key);
        InsertSorts(f, rest);
        var tail := Insert(f, rest);
        forall j | 0 <= j < |tail| ensures Less(fields[0].key, tail[j].key) {
          assert tail[j] in tail;
          if tail[j] != f { var k :| 0 <= k < |rest| && rest[k] == tail[j]; assert rest[k] == fields[k + 1]; }
        }
      }
    }
  }

  lemma {:induction false} SortSorts(fields: seq<Field>)
    requires KeysDiffer(fields)
    ensures Sorted(Sort(fields)) && SameFields(Sort(fields), fields)
  {
    if fields != [] {
      var n := |fields| - 1;
      SortSorts(fields[..n]);
      var sorted := Sort(fields[..n]);
      forall k | 0 <= k < |sorted| ensures sorted[k].key != fields[n].key {
        assert sorted[k] in fields[..n];
      }
      InsertSorts(fields[n], sorted);
      assert fields == fields[..n] + [fields[n]];
    }
  }

  /** There is only one sorted order. */
  lemma {:induction false} SortedUnique(a: seq<Field>, b: seq<Field>)
    requires Sorted(a) && Sorted(b) && SameFields(a, b)
    ensures a == b
  {
    hide Less;
    assert b != [] ==> b[0] in b;
    if a != [] {
      assert a[0] in b && (b == [] || b[0] in a);
      var i :| 0 <= i < |b| && b[i] == a[0];
      var j :| 0 <= j < |a| && a[j] == b[0];
      LessTotal(a[0].key, b[0].key);
      assert a[0] == b[0];
      forall f ensures f in a[1..] <==> f in b[1..] {
        LessTotal(f.key, f.key);
        assert f in a <==> f == a[0] || f in a[1..];
        assert f in b <==> f == b[0] || f in b[1..];
      }
      SortedUnique(a[1..], b[1..]);
      assert a == [a[0]] + a[1..] && b == [b[0]] + b[1..];
    }
  }

  lemma {:induction false} LessPrecedes(a: Text, b: Text)
    requires Less(a, b)
    ensures Precedes(a, b)
  {
    if a == [] || a[0] < b[0] {
      assert a[..0] == b[..0];
    } else {
      LessPrecedes(a[1..], b[1..]);
      var k: nat :| k <= |a[1..]| && k < |b[1..]| && a[1..][..k] == b[1..][..k]
                    && (k == |a[1..]| || a[1..][k] < b[1..][k]);
      assert a[..k + 1] == [a[0]] + a[1..][..k] && b[..k + 1] == [b[0]] + b[1..][..k];
    }
  }

  // ---- reading values back ----

  ghost predicate Good(v: Json) { Proper(v) && Defined(v) }

  /** The text of a bracketed list from its first element on. */
  function Rest(texts: seq<Text>, tail: Text): Text
    requires texts != []
  {
    if |texts| == 1 then tail else [COMMA] + (Join(texts[1..]) + tail)
  }

  lemma JoinHead(texts: seq<Text>, tail: Text)
    requires texts != []
    ensures Join(texts) + tail == texts[0] + Rest(texts, tail)
  {
  }

  lemma RestFollows(texts: seq<Text>, close: Unit, tail: Text)
    requires texts != [] && close in {93, 125}
    ensures var rest := Rest(texts, [close] + tail);
            && rest != [] && Follows(rest) && rest[0] == (if |texts| == 1 then close else COMMA)
            && rest[1..] == if |texts| == 1 then tail else Join(texts[1..]) + ([close] + tail)
  {
  }

  /** The first unit of a printed value is none that closes a list. */
  lemma PrintStarts(v: Json)
    requires Defined(v)
    ensures Print(v) != [] && Print(v)[0] !in {93, 125}
  {
    hide Digits, EscapeFrom, Join, Members, Sort;
    if v.Num? { NumberReads(v.n, []); }
  }

  lemma Head(a: Text, x: Text)
    requires a != []
    ensures (a + x)[0] == a[0] && (a + x)[1..] == a[1..] + x
  {
  }

  /** A printed value is read back: what the reader finds means the same, its members are in order, and the rest is
      what followed. */
  lemma {:induction false} PrintReads(v: Json, tail: Text)
    requires Good(v) && Follows(tail)
    ensures var r := ReadValue(Print(v) + tail);
            r.Some? && r.value.rest == tail && Meaning(r.value.value) == Meaning(v) && Ascending(r.value.value)
    decreases v, 2, 0
  {
    hide Digits, EscapeFrom, Join, Members, Sort, ReadNumber, ReadString, ReadItems, ReadMembers, Quote, Number;
    var s := Print(v) + tail;
    match v {
      case Null => assert s == NULL + tail && s[4..] == tail;
      case Bool(b) => assert b ==> s[4..] == tail; assert !b ==> s[5..] == tail;
      case Num(n) =>
        NumberReads(n, tail);
        Head(Number(n), tail);
      case Str(text) =>
        QuoteReads(text, tail);
        assert s[0] == QUOTE by { QuoteStarts(text, tail); }
      case Arr(items) => ArrReads(v, tail);
      case Obj(entries) => ObjReads(v, tail);
      case Undefined =>
    }
  }

  lemma QuoteStarts(s: Text, tail: Text)
    ensures At(Quote(s) + tail, '"')
  {
  }

  lemma ArrReads(v: Json, tail: Text)
    requires v.Arr? && Good(v)
    ensures var r := ReadValue(Print(v) + tail);
            r.Some? && r.value.rest == tail && Meaning(r.value.value) == Meaning(v) && Ascending(r.value.value)
    decreases v, 1, 0
  {
    hide Join, ReadItems, ReadMembers, ReadString, ReadNumber, Meaning;
    var s, texts := Print(v) + tail, PrintItems(v.items);
    assert s[0] == 91 && s[1..] == Join(texts) + ([93] + tail);
    if v.items == [] {
      assert s[1..] == [93] + tail by { JoinNothing(texts); }
      assert s[2..] == tail;
      assert MeaningItems(v.items) == [];
    } else {
      ItemsRead(v, v.items, tail);
      JoinHead(texts, [93] + tail);
      PrintStarts(v.items[0]);
      Head(texts[0], Rest(texts, [93] + tail));
    }
    SameItems(v, ReadValue(s).value.value);
  }

  lemma JoinNothing(texts: seq<Text>)
    requires texts == []
    ensures Join(texts) == []
  {
  }

  lemma SameItems(a: Json, b: Json)
    requires a.Arr? && b.Arr? && |a.items| == |b.items|
    requires forall k :: 0 <= k < |a.items| ==> Meaning(a.items[k]) == Meaning(b.items[k])
    ensures Meaning(a) == Meaning(b)
  {
    assert MeaningItems(a.items) == MeaningItems(b.items);
  }

  lemma {:induction false} ItemsRead(whole: Json, items: seq<Json>, tail: Text)
    requires items != [] && forall k :: 0 <= k < |items| ==> items[k] < whole && Good(items[k])
    ensures var r := ReadItems(Join(PrintItems(items)) + ([93] + tail));
            && r.Some? && r.value.rest == tail && |r.value.value| == |items|
            && forall k :: 0 <= k < |items| ==>
                 Meaning(r.value.value[k]) == Meaning(items[k]) && Ascending(r.value.value[k])
    decreases whole, 0, |items|
  {
    hide Join, Print, Rest, Follows, ReadValue, Meaning, Ascending, Proper, Defined;
    var texts := PrintItems(items);
    JoinHead(texts, [93] + tail);
    RestFollows(texts, 93, tail);
    PrintReads(items[0], Rest(texts, [93] + tail));
    if |items| > 1 {
      assert texts[1..] == PrintItems(items[1..]);
      ItemsRead(whole, items[1..], tail);
    }
  }

  // ---- objects ----

  lemma {:induction false} EntryMeaning(entries: seq<Entry>, i: nat)
    requires DistinctKeys(entries) && i < |entries|
    ensures entries[i].key in MeaningEntries(entries)
    ensures MeaningEntries(entries)[entries[i].key] == Meaning(entries[i].value)
  {
    hide Meaning, MeaningEntries;
    var n := |entries| - 1;
    LastEntry(entries);
    if i < n {
      assert entries[..n][i] == entries[i];
      EntryMeaning(entries[..n], i);
    }
  }

  lemma LastEntry(entries: seq<Entry>)
    requires entries != []
    ensures var last := entries[|entries| - 1];
            MeaningEntries(entries) == MeaningEntries(entries[..|entries| - 1])[last.key := Meaning(last.value)]
  {
    hide Meaning;
  }

  /** The fields of an object in their printed order. */
  function Ordered(entries: seq<Entry>): seq<Field> { Sort(PrintEntries(entries)) }

  lemma OrderedFacts(entries: seq<Entry>)
    requires DistinctKeys(entries)
    ensures Sorted(Ordered(entries)) && SameFields(Ordered(entries), PrintEntries(entries))
  {
    hide Sort, Print;
    SortSorts(PrintEntries(entries));
  }

  lemma EntrySmaller(v: Json, i: nat)
    requires v.Obj? && i < |v.entries|
    ensures v.entries[i].value < v
  {
  }

  /** The value a printed field came from. */
  ghost function ValueOf(entries: seq<Entry>, f: Field): (v: Json)
    requires f in PrintEntries(entries)
    ensures exists i :: 0 <= i < |entries| && entries[i].value == v && f == Field(entries[i].key, Print(v))
  {
    var i :| 0 <= i < |entries| && PrintEntries(entries)[i] == f;
    entries[i].value
  }

  lemma MemberReads(whole: Json, f: Field, v: Json, tail: Text)
    requires f.text == Print(v) && v < whole && Good(v) && Follows(tail)
    ensures var r := ReadMember(Member(f) + tail);
            && r.Some? && r.value.rest == tail && r.value.value.key == f.key
            && Meaning(r.value.value.value) == Meaning(v) && Ascending(r.value.value.value)
    decreases whole, 0, 0
  {
    hide Quote, ReadString, ReadValue, Print, Meaning, Ascending, Proper, Defined, Follows;
    var after := [COLON] + (f.text + tail);
    assert Member(f) + tail == Quote(f.key) + after;
    QuoteReads(f.key, after);
    assert after[1..] == f.text + tail;
    PrintReads(v, tail);
  }

  lemma {:induction false} MembersRead(whole: Json, fields: seq<Field>, values: seq<Json>, tail: Text)
    requires fields != [] && |values| == |fields|
    requires forall k :: 0 <= k < |fields| ==>
               fields[k].text == Print(values[k]) && values[k] < whole && Good(values[k])
    ensures var r := ReadMembers(Join(Members(fields)) + ([125] + tail));
            && r.Some? && r.value.rest == tail && |r.value.value| == |fields|
            && forall k :: 0 <= k < |fields| ==>
                 && r.value.value[k].key == fields[k].key
                 && Meaning(r.value.value[k].value) == Meaning(values[k]) && Ascending(r.value.value[k].value)
    decreases whole, 0, |fields|
  {
    hide Join, Print, Member, Rest, Follows, ReadMember, Meaning, Ascending, Proper, Defined;
    var texts := Members(fields);
    JoinHead(texts, [125] + tail);
    RestFollows(texts, 125, tail);
    MemberReads(whole, fields[0], values[0], Rest(texts, [125] + tail));
    if |fields| > 1 {
      assert texts[1..] == Members(fields[1..]);
      MembersRead(whole, fields[1..], values[1..], tail);
    }
  }

  /** The fields of an object come from its entries. */
  ghost predicate ComesFrom(v: Json, f: Field, value: Json)
    requires v.Obj?
  {
    f.text == Print(value)
    && exists i :: 0 <= i < |v.entries| && v.entries[i].key == f.key && v.entries[i].value == value
  }

  lemma ValuesOf(v: Json) returns (values: seq<Json>)
    requires v.Obj? && Good(v)
    ensures |values| == |Ordered(v.entries)|
    ensures forall k :: 0 <= k < |values| ==>
              ComesFrom(v, Ordered(v.entries)[k], values[k]) && values[k] < v && Good(values[k])
  {
    hide Sort, Sorted, Print, ValueOf;
    OrderedFacts(v.entries);
    var fields := Ordered(v.entries);
    forall k | 0 <= k < |fields| ensures fields[k] in PrintEntries(v.entries) { assert fields[k] in fields; }
    values := seq(|fields|, k requires 0 <= k < |fields| => ValueOf(v.entries, fields[k]));
    forall k | 0 <= k < |fields| ensures ComesFrom(v, fields[k], values[k]) && values[k] < v && Good(values[k]) {
      var i :| 0 <= i < |v.entries| && v.entries[i].value == values[k]
               && fields[k] == Field(v.entries[i].key, Print(values[k]));
      EntrySmaller(v, i);
    }
  }

  /** What is read of the members is an object that means the same, in order. */
  lemma EntriesRead(v: Json, tail: Text)
    requires v.Obj? && Good(v) && Ordered(v.entries) != []
    ensures var r := ReadMembers(Join(Members(Ordered(v.entries))) + ([125] + tail));
            && r.Some? && r.value.rest == tail
            && Meaning(Obj(r.value.value)) == Meaning(v) && Ascending(Obj(r.value.value))
    decreases v, 1, 0
  {
    hide Join, Sort, Sorted, ReadMembers, Meaning, Ascending, Print;
    OrderedFacts(v.entries);
    var fields := Ordered(v.entries);
    var values := ValuesOf(v);
    MembersRead(v, fields, values, tail);
    var entries := ReadMembers(Join(Members(fields)) + ([125] + tail)).value.value;
    forall k | 0 <= k < |fields|
      ensures exists i :: 0 <= i < |v.entries| && v.entries[i].key == entries[k].key
                          && Meaning(v.entries[i].value) == Meaning(entries[k].value)
    {
      assert ComesFrom(v, fields[k], values[k]);
    }
    SameEntries(v.entries, fields, entries);
    InOrder(fields, entries);
    SameObjects(v, Obj(entries));
  }

  lemma ObjReads(v: Json, tail: Text)
    requires v.Obj? && Good(v)
    ensures var r := ReadValue(Print(v) + tail);
            r.Some? && r.value.rest == tail && Meaning(r.value.value) == Meaning(v) && Ascending(r.value.value)
    decreases v, 1, 1
  {
    hide Join, Sort, Sorted, ReadMembers, ReadItems, ReadString, ReadNumber, Meaning;
    OrderedFacts(v.entries);
    var fields := Ordered(v.entries);
    var s := Print(v) + tail;
    assert s[0] == 123 && s[1..] == Join(Members(fields)) + ([125] + tail);
    if fields == [] {
      assert s[1..] == [125] + tail by { JoinNothing(Members(fields)); }
      assert s[2..] == tail;
      SameEntries(v.entries, fields, []);
      SameObjects(v, Obj([]));
    } else {
      EntriesRead(v, tail);
      assert At(s[1..], '"') by { MembersStart(fields, tail); }
    }
  }

  lemma MembersStart(fields: seq<Field>, tail: Text)
    requires fields != []
    ensures At(Join(Members(fields)) + ([125] + tail), '"')
  {
    hide EscapeFrom;
  }

  lemma SameObjects(a: Json, b: Json)
    requires a.Obj? && b.Obj? && MeaningEntries(a.entries) == MeaningEntries(b.entries)
    ensures Meaning(a) == Meaning(b)
  {
  }

  lemma InOrder(fields: seq<Field>, entries: seq<Entry>)
    requires Sorted(fields) && |entries| == |fields|
    requires forall k :: 0 <= k < |fields| ==> entries[k].key == fields[k].key && Ascending(entries[k].value)
    ensures Ascending(Obj(entries))
  {
    hide Less, Precedes;
    forall i, j | 0 <= i < j < |entries| ensures Precedes(entries[i].key, entries[j].key) {
      LessPrecedes(fields[i].key, fields[j].key);
    }
  }

  /** Entries read in the order of the fields mean what the entries meant. */
  lemma SameEntries(from: seq<Entry>, fields: seq<Field>, entries: seq<Entry>)
    requires DistinctKeys(from) && Sorted(fields) && SameFields(fields, PrintEntries(from)) && |entries| == |fields|
    requires forall k :: 0 <= k < |fields| ==> entries[k].key == fields[k].key
    requires forall k :: 0 <= k < |fields| ==>
               exists i :: 0 <= i < |from| && from[i].key == entries[k].key
                           && Meaning(from[i].value) == Meaning(entries[k].value)
    ensures MeaningEntries(entries) == MeaningEntries(from)
  {
    hide Less, Meaning, Print;
    assert DistinctKeys(entries) by {
      forall i, j | 0 <= i < j < |entries| ensures entries[i].key != entries[j].key {
        LessTotal(fields[i].key, fields[j].key);
        LessTotal(fields[i].key, fields[i].key);
      }
    }
    forall key | key in MeaningEntries(entries)
      ensures key in MeaningEntries(from) && MeaningEntries(from)[key] == MeaningEntries(entries)[key]
    {
      var k :| 0 <= k < |entries| && entries[k].key == key;
      var i :| 0 <= i < |from| && from[i].key == key && Meaning(from[i].value) == Meaning(entries[k].value);
      EntryMeaning(from, i);
      EntryMeaning(entries, k);
    }
    forall key | key in MeaningEntries(from) ensures key in MeaningEntries(entries) {
      var i :| 0 <= i < |from| && from[i].key == key;
      assert PrintEntries(from)[i] in PrintEntries(from);
      var k :| 0 <= k < |fields| && fields[k] == PrintEntries(from)[i];
      assert entries[k].key == key;
    }
  }

  /** Unique readability: whatever follows a printed value, the value's meaning and the rest are determined. */
  lemma Readable(a: Json, b: Json, x: Text, y: Text)
    requires Good(a) && Good(b) && Print(a) + x == Print(b) + y && Follows(x) && Follows(y)
    ensures Meaning(a) == Meaning(b) && Print(a) == Print(b) && x == y
  {
    hide Print, Meaning, ReadValue, Follows, Good;
    PrintReads(a, x);
    PrintReads(b, y);
    assert Print(a) == (Print(a) + x)[..|Print(a)|] && Print(b) == (Print(b) + y)[..|Print(b)|];
  }

  // ---- the normal form ----

  /** Values that mean the same print the same, in whatever order their objects list their properties. */
  lemma {:induction false} OrderDoesNotMatter(a: Json, b: Json)
    requires Proper(a) && Proper(b) && Meaning(a) == Meaning(b)
    ensures Print(a) == Print(b)
    decreases a
  {
    hide Sort, Sorted, Quote, Digits;
    match a {
      case Arr(items) =>
        forall k | 0 <= k < |items| ensures Print(items[k]) == Print(b.items[k]) {
          assert MeaningItems(items)[k] == MeaningItems(b.items)[k];
          OrderDoesNotMatter(items[k], b.items[k]);
        }
        assert PrintItems(items) == PrintItems(b.items);
      case Obj(entries) =>
        forall i, j | 0 <= i < |entries| && 0 <= j < |b.entries| && entries[i].key == b.entries[j].key
          ensures Print(entries[i].value) == Print(b.entries[j].value) {
          EntryMeaning(entries, i);
          EntryMeaning(b.entries, j);
          OrderDoesNotMatter(entries[i].value, b.entries[j].value);
        }
        SameKeysSameOrder(entries, b.entries);
      case _ =>
    }
  }

  lemma SameKeysSameOrder(s: seq<Entry>, t: seq<Entry>)
    requires DistinctKeys(s) && DistinctKeys(t) && MeaningEntries(s).Keys == MeaningEntries(t).Keys
    requires forall i, j :: 0 <= i < |s| && 0 <= j < |t| && s[i].key == t[j].key ==>
               Print(s[i].value) == Print(t[j].value)
    ensures Ordered(s) == Ordered(t)
  {
    hide Print, Meaning, Sort, Sorted, Ordered;
    OrderedFacts(s);
    OrderedFacts(t);
    forall f | f in PrintEntries(s) ensures f in PrintEntries(t) {
      var i :| 0 <= i < |s| && PrintEntries(s)[i] == f;
      assert s[i].key in MeaningEntries(s).Keys;
      var j :| 0 <= j < |t| && t[j].key == s[i].key;
      assert PrintEntries(t)[j] == f;
    }
    forall f | f in PrintEntries(t) ensures f in PrintEntries(s) {
      var j :| 0 <= j < |t| && PrintEntries(t)[j] == f;
      assert t[j].key in MeaningEntries(t).Keys;
      var i :| 0 <= i < |s| && s[i].key == t[j].key;
      assert PrintEntries(s)[i] == f;
    }
    SortedUnique(Ordered(s), Ordered(t));
  }

  /** Canonical JSON is a normal form: values without undefined parts print the same text if and only if they mean the
      same, objects being unordered maps; and a value with an undefined part prints nothing at all. */
  lemma NormalForm(a: Json, b: Json)
    requires Proper(a) && Proper(b)
    ensures Canonicalize(a).Some? <==> Defined(a)
    ensures Canonicalize(a).Some? && Canonicalize(b).Some? ==>
              (Canonicalize(a) == Canonicalize(b) <==> Meaning(a) == Meaning(b))
  {
    hide Print, Meaning, Proper, Defined;
    if Defined(a) && Defined(b) {
      if Print(a) == Print(b) { Readable(a, b, [], []); }
      if Meaning(a) == Meaning(b) { OrderDoesNotMatter(a, b); }
    }
  }

  // ---- encoding ----

  /** Every surrogate is half of a pair, so the text survives its encoding as UTF-8 unchanged. */
  ghost predicate WellFormed(s: Text) { forall i :: 0 <= i < |s| ==> !IsLone(s, i) }

  lemma WellFormedConcat(a: Text, b: Text)
    requires WellFormed(a) && WellFormed(b)
    ensures WellFormed(a + b)
  {
    forall i | 0 <= i < |a + b| ensures !IsLone(a + b, i) {
      if i < |a| { assert !IsLone(a, i); } else { assert !IsLone(b, i - |a|); }
    }
  }

  lemma HexIsPlain(u: Unit)
    ensures WellFormed([BACKSLASH, 117] + Hex4(u))
  {
  }

  predicate IsPair(s: Text, i: nat) { i + 1 < |s| && IsHigh(s[i]) && IsLow(s[i + 1]) }

  lemma PairIsKept(s: Text, i: nat)
    requires IsPair(s, i)
    ensures EscapeFrom(s, i) == [s[i], s[i + 1]] + EscapeFrom(s, i + 2) && WellFormed([s[i], s[i + 1]])
  {
    assert EscapeUnit(s, i) == [s[i]] && EscapeUnit(s, i + 1) == [s[i + 1]];
    assert EscapeFrom(s, i + 1) == [s[i + 1]] + EscapeFrom(s, i + 2);
  }

  lemma UnpairedIsEscaped(s: Text, i: nat)
    requires i < |s| && !IsPair(s, i) && !(i > 0 && IsPair(s, i - 1))
    ensures WellFormed(EscapeUnit(s, i))
  {
    hide Hex4;
    HexIsPlain(s[i]);
  }

  lemma {:induction false} EscapeWellFormed(s: Text, i: nat)
    requires i <= |s| && !(i > 0 && IsPair(s, i - 1))
    ensures WellFormed(EscapeFrom(s, i))
    decreases |s| - i
  {
    hide EscapeUnit, WellFormed;
    if i == |s| {
      NothingIsWellFormed();
    } else if IsPair(s, i) {
      PairIsKept(s, i);
      EscapeWellFormed(s, i + 2);
      WellFormedConcat([s[i], s[i + 1]], EscapeFrom(s, i + 2));
    } else {
      UnpairedIsEscaped(s, i);
      EscapeWellFormed(s, i + 1);
      WellFormedConcat(EscapeUnit(s, i), EscapeFrom(s, i + 1));
    }
  }

  lemma QuoteWellFormed(s: Text)
    ensures WellFormed(Quote(s))
  {
    hide EscapeFrom;
    EscapeWellFormed(s, 0);
    WellFormedConcat([QUOTE], EscapeFrom(s, 0));
    WellFormedConcat([QUOTE] + EscapeFrom(s, 0), [QUOTE]);
  }

  lemma NumberWellFormed(n: int)
    ensures WellFormed(Number(n))
  {
    hide Digits;
    DigitsRead(if n < 0 then -n else n);
  }

  lemma {:induction false} JoinWellFormed(texts: seq<Text>)
    requires forall k :: 0 <= k < |texts| ==> WellFormed(texts[k])
    ensures WellFormed(Join(texts))
  {
    hide WellFormed;
    if texts == [] {
      assert WellFormed([]) by { NothingIsWellFormed(); }
    } else if |texts| > 1 {
      JoinWellFormed(texts[1..]);
      PlainWellFormed(COMMA);
      WellFormedConcat([COMMA], Join(texts[1..]));
      WellFormedConcat(texts[0], [COMMA] + Join(texts[1..]));
    }
  }

  lemma NothingIsWellFormed()
    ensures WellFormed([])
  {
  }

  lemma PlainWellFormed(u: Unit)
    requires u < 0xD800
    ensures WellFormed([u])
  {
  }

  lemma Bracketed(open: Unit, text: Text, close: Unit)
    requires open < 0xD800 && close < 0xD800 && WellFormed(text)
    ensures WellFormed([open] + text + [close])
  {
    hide WellFormed;
    PlainWellFormed(open);
    PlainWellFormed(close);
    WellFormedConcat([open], text);
    WellFormedConcat([open] + text, [close]);
  }

  /** What is printed never contains a lone surrogate, though strings and keys may. */
  lemma {:induction false} PrintIsWellFormed(v: Json)
    requires Proper(v)
    ensures WellFormed(Print(v))
    decreases v
  {
    hide Join, Members, Sort, Quote, Number, WellFormed;
    match v {
      case Num(n) => NumberWellFormed(n);
      case Str(s) => QuoteWellFormed(s);
      case Arr(items) =>
        forall k | 0 <= k < |items| ensures WellFormed(PrintItems(items)[k]) { PrintIsWellFormed(items[k]); }
        JoinWellFormed(PrintItems(items));
        Bracketed(91, Join(PrintItems(items)), 93);
      case Obj(entries) =>
        OrderedFacts(entries);
        var fields := Ordered(entries);
        forall k | 0 <= k < |fields| ensures WellFormed(Members(fields)[k]) {
          assert fields[k] in fields;
          var i :| 0 <= i < |entries| && PrintEntries(entries)[i] == fields[k];
          PrintIsWellFormed(entries[i].value);
          MemberWellFormed(fields[k]);
        }
        JoinWellFormed(Members(fields));
        Bracketed(123, Join(Members(fields)), 125);
      case _ =>
        ConstantsWellFormed();
    }
  }

  lemma ConstantsWellFormed()
    ensures WellFormed(NULL) && WellFormed(TRUE) && WellFormed(FALSE) && WellFormed([])
  {
  }

  lemma MemberWellFormed(f: Field)
    requires WellFormed(f.text)
    ensures WellFormed(Member(f))
  {
    hide WellFormed, Quote;
    QuoteWellFormed(f.key);
    PlainWellFormed(COLON);
    WellFormedConcat(Quote(f.key), [COLON]);
    WellFormedConcat(Quote(f.key) + [COLON], f.text);
  }
}
