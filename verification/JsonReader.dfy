/** A reader of JSON text after the grammar of RFC 8259, for text without insignificant whitespace, fractions and
    exponents. An object's members are kept in the order of the text. */
module JsonReader {
  import opened Wrappers
  import opened JsonValue

  /** A value and the text behind it. */
  datatype Reading<+T> = Reading(value: T, rest: Text)

  /** The text starts with the character. */
  predicate At(s: Text, c: char) { s != [] && s[0] == c as int }

  // ---- strings: section 7 ----

  /** What a letter stands for after a backslash. */
  function Unescaped(u: Unit): Option<Unit> {
    if u in {'"' as int, '\\' as int, '/' as int} then Some(u)
    else if u == 'b' as int then Some(0x08)
    else if u == 'f' as int then Some(0x0C)
    else if u == 'n' as int then Some(0x0A)
    else if u == 'r' as int then Some(0x0D)
    else if u == 't' as int then Some(0x09)
    else None
  }

  function HexValue(u: Unit): (r: Option<nat>)
    ensures r.Some? ==> r.value < 16
  {
    if '0' as int <= u <= '9' as int then Some(u - '0' as int)
    else if 'a' as int <= u <= 'f' as int then Some(u - 'a' as int + 10)
    else if 'A' as int <= u <= 'F' as int then Some(u - 'A' as int + 10)
    else None
  }

  /** The code unit that four hexadecimal digits spell. */
  function ReadHex(s: Text): Option<Unit>
    requires |s| == 4
  {
    var a, b, c, d := HexValue(s[0]), HexValue(s[1]), HexValue(s[2]), HexValue(s[3]);
    if a.None? || b.None? || c.None? || d.None? then None
    else Some(4096 * a.value + 256 * b.value + 16 * c.value + d.value)
  }

  function ReadEscape(s: Text): (r: Option<Reading<Unit>>)
    requires At(s, '\\')
    ensures r.Some? ==> |r.value.rest| < |s|
  {
    if |s| < 2 then None
    else if s[1] == 'u' as int then
      if |s| < 6 || ReadHex(s[2..6]).None? then None else Some(Reading(ReadHex(s[2..6]).value, s[6..]))
    else if Unescaped(s[1]).None? then None
    else Some(Reading(Unescaped(s[1]).value, s[2..]))
  }

  function ReadUnit(s: Text): (r: Option<Reading<Unit>>)
    requires s != []
    ensures r.Some? ==> |r.value.rest| < |s|
  {
    if s[0] < 0x20 then None else if At(s, '\\') then ReadEscape(s) else Some(Reading(s[0], s[1..]))
  }

  /** The string up to its closing quote. */
  function ReadChars(s: Text): (r: Option<Reading<Text>>)
    ensures r.Some? ==> |r.value.rest| < |s|
    decreases |s|
  {
    if s == [] then None
    else if At(s, '"') then Some(Reading([], s[1..]))
    else
      var first := ReadUnit(s);
      if first.None? then None
      else
        var others := ReadChars(first.value.rest);
        if others.None? then None else Some(Reading([first.value.value] + others.value.value, others.value.rest))
  }

  function ReadString(s: Text): (r: Option<Reading<Text>>)
    ensures r.Some? ==> |r.value.rest| < |s|
  {
    if At(s, '"') then ReadChars(s[1..]) else None
  }

  // ---- numbers: section 6 ----

  predicate IsDigit(u: Unit) { '0' as int <= u <= '9' as int }

  predicate AllDigits(s: Text) { forall k :: 0 <= k < |s| ==> IsDigit(s[k]) }

  /** The length of the run of digits the text starts with. */
  function RunLength(s: Text): (n: nat)
    ensures n <= |s| && AllDigits(s[..n]) && (n < |s| ==> !IsDigit(s[n]))
  {
    if s == [] || !IsDigit(s[0]) then 0 else 1 + RunLength(s[1..])
  }

  /** The number a run of decimal digits denotes. */
  function Positional(digits: Text): nat
    requires AllDigits(digits)
  {
    if digits == [] then 0
    else 10 * Positional(digits[..|digits| - 1]) + (digits[|digits| - 1] - '0' as int)
  }

  /** A run of digits without a leading zero; negative zero is not an integer. */
  function ReadNumber(s: Text): (r: Option<Reading<Json>>)
    ensures r.Some? ==> |r.value.rest| < |s|
  {
    var negative := At(s, '-');
    var t := if negative then s[1..] else s;
    var n := RunLength(t);
    if n == 0 || (At(t, '0') && n > 1) then None
    else if At(t[n..], '.') || At(t[n..], 'e') || At(t[n..], 'E') then None
    else
      var m := Positional(t[..n]);
      if m > 9007199254740991 || (negative && m == 0) then None
      else Some(Reading(Num(if negative then 0 - m else m), t[n..]))
  }

  // ---- values: sections 3 to 5 ----

  predicate StartsWith(s: Text, word: string)
    requires forall k :: 0 <= k < |word| ==> word[k] < '\U{80}'
  {
    |word| <= |s| && forall k :: 0 <= k < |word| ==> s[k] == word[k] as int
  }

  function ReadValue(s: Text): (r: Option<Reading<Json>>)
    ensures r.Some? ==> |r.value.rest| < |s|
    decreases |s|, 0
  {
    if StartsWith(s, "null") then Some(Reading(Null, s[4..]))
    else if StartsWith(s, "true") then Some(Reading(Bool(true), s[4..]))
    else if StartsWith(s, "false") then Some(Reading(Bool(false), s[5..]))
    else if At(s, '"') then
      var text := ReadString(s);
      if text.None? then None else Some(Reading(Str(text.value.value), text.value.rest))
    else if At(s, '[') then
      if At(s[1..], ']') then Some(Reading(Arr([]), s[2..]))
      else
        var items := ReadItems(s[1..]);
        if items.None? then None else Some(Reading(Arr(items.value.value), items.value.rest))
    else if At(s, '{') then
      if At(s[1..], '}') then Some(Reading(Obj([]), s[2..]))
      else
        var entries := ReadMembers(s[1..]);
        if entries.None? then None else Some(Reading(Obj(entries.value.value), entries.value.rest))
    else ReadNumber(s)
  }

  /** One or more values, separated by commas and closed by a bracket. */
  function ReadItems(s: Text): (r: Option<Reading<seq<Json>>>)
    ensures r.Some? ==> |r.value.rest| < |s|
    decreases |s|, 1
  {
    var first := ReadValue(s);
    if first.None? then None
    else
      var t := first.value.rest;
      if At(t, ']') then Some(Reading([first.value.value], t[1..]))
      else if !At(t, ',') then None
      else
        var others := ReadItems(t[1..]);
        if others.None? then None else Some(Reading([first.value.value] + others.value.value, others.value.rest))
  }

  function ReadMember(s: Text): (r: Option<Reading<Entry>>)
    ensures r.Some? ==> |r.value.rest| < |s|
    decreases |s|, 1
  {
    var key := ReadString(s);
    if key.None? || !At(key.value.rest, ':') then None
    else
      var value := ReadValue(key.value.rest[1..]);
      if value.None? then None else Some(Reading(Entry(key.value.value, value.value.value), value.value.rest))
  }

  /** One or more members, separated by commas and closed by a brace. */
  function ReadMembers(s: Text): (r: Option<Reading<seq<Entry>>>)
    ensures r.Some? ==> |r.value.rest| < |s|
    decreases |s|, 2
  {
    var first := ReadMember(s);
    if first.None? then None
    else
      var t := first.value.rest;
      if At(t, '}') then Some(Reading([first.value.value], t[1..]))
      else if !At(t, ',') then None
      else
        var others := ReadMembers(t[1..]);
        if others.None? then None else Some(Reading([first.value.value] + others.value.value, others.value.rest))
  }

  // ---- the order of members ----

  /** Code-unit order: up to some position the texts agree, and there the first ends or has the smaller unit. */
  ghost predicate Precedes(a: Text, b: Text) {
    exists k: nat :: k <= |a| && k < |b| && a[..k] == b[..k] && (k == |a| || a[k] < b[k])
  }

  /** In every object, however deep, each member's key precedes those after it. */
  ghost predicate Ascending(v: Json)
    decreases v
  {
    match v
    case Arr(items) => forall k :: 0 <= k < |items| ==> Ascending(items[k])
    case Obj(entries) =>
      && (forall i, j :: 0 <= i < j < |entries| ==> Precedes(entries[i].key, entries[j].key))
      && (forall k :: 0 <= k < |entries| ==> Ascending(entries[k].value))
    case _ => true
  }
}
