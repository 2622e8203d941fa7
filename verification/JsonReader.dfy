/** A reader of JSON texts without white space, as sections 3 to 7 of RFC 8259 describe them. */
module JsonReader {
  import opened Wrappers
  import opened KeyOrder
  import opened CanonicalJson

  /** What was read, and the text after it. */
  datatype Found<T> = Found(value: T, rest: string)

  // ----- strings -----

  function HexValue(c: char): Option<nat> {
    if '0' <= c <= '9' then Some(c as int - '0' as int)
    else if 'a' <= c <= 'f' then Some(c as int - 'a' as int + 10)
    else if 'A' <= c <= 'F' then Some(c as int - 'A' as int + 10)
    else None
  }

  function HexNumber(s: string): Option<nat> {
    if s == [] then Some(0)
    else match (HexNumber(s[..|s| - 1]), HexValue(s[|s| - 1]))
      case (Some(high), Some(low)) => Some(16 * high + low)
      case _ => None
  }

  /** The escapes of section 7. */
  function ShortEscape(c: char): Option<char> {
    match c
    case '"' => Some('"')
    case '\\' => Some('\\')
    case '/' => Some('/')
    case 'b' => Some('\U{8}')
    case 'f' => Some('\U{C}')
    case 'n' => Some('\n')
    case 'r' => Some('\r')
    case 't' => Some('\t')
    case _ => None
  }

  /** One character of a string literal: itself, a short escape, or u and four hexadecimal digits. */
  function ReadChar(s: string): (r: Option<Found<char>>)
    ensures r.Some? ==> |r.value.rest| < |s|
  {
    if s == [] || s[0] == '"' || s[0] < ' ' then None
    else if s[0] != '\\' then Some(Found(s[0], s[1..]))
    else if |s| < 2 then None
    else if ShortEscape(s[1]).Some? then Some(Found(ShortEscape(s[1]).value, s[2..]))
    else if s[1] == 'u' && |s| >= 6 && HexNumber(s[2..6]).Some? && HexNumber(s[2..6]).value < 0xD800 then
      Some(Found(HexNumber(s[2..6]).value as char, s[6..]))
    else None
  }

  /** The rest of a string literal, up to its closing quote. */
  function ReadChars(s: string): (r: Option<Found<string>>)
    ensures r.Some? ==> |r.value.rest| < |s|
    decreases |s|
  {
    if s != [] && s[0] == '"' then Some(Found("", s[1..]))
    else match ReadChar(s)
      case None => None
      case Some(c) =>
        match ReadChars(c.rest)
        case None => None
        case Some(t) => Some(Found([c.value] + t.value, t.rest))
  }

  // ----- values -----

  function StartsWith(s: string, word: string): bool {
    |word| <= |s| && s[..|word|] == word
  }

  function ReadValue(s: string): (r: Option<Found<Json>>)
    ensures r.Some? ==> |r.value.rest| < |s|
    decreases |s|, 0
  {
    if StartsWith(s, "null") then Some(Found(Null, s[4..]))
    else if StartsWith(s, "true") then Some(Found(Bool(true), s[4..]))
    else if StartsWith(s, "false") then Some(Found(Bool(false), s[5..]))
    else if s == [] then None
    else if s[0] == '"' then
      match ReadChars(s[1..]) case None => None case Some(t) => Some(Found(Str(t.value), t.rest))
    else if s[0] == '[' then
      if |s| > 1 && s[1] == ']' then Some(Found(Arr([]), s[2..]))
      else match ReadItems(s[1..]) case None => None case Some(t) => Some(Found(Arr(t.value), t.rest))
    else if s[0] == '{' then
      if |s| > 1 && s[1] == '}' then Some(Found(Obj([]), s[2..]))
      else match ReadMembers(s[1..]) case None => None case Some(t) => Some(Found(Obj(t.value), t.rest))
    else if IsDigit(s[0]) || s[0] == '-' then
      NumericRunFits(s);
      Some(Found(Num(s[..NumericRun(s)]), s[NumericRun(s)..]))
    else None
  }

  lemma {:induction false} NumericRunFits(s: string)
    ensures NumericRun(s) <= |s| && (s != [] && (IsDigit(s[0]) || s[0] == '-') ==> NumericRun(s) > 0)
  {
    if s != [] {
      NumericRunFits(s[1..]);
    }
  }

  /** One or more elements, separated by commas, and the closing bracket. */
  function ReadItems(s: string): (r: Option<Found<seq<Json>>>)
    ensures r.Some? ==> |r.value.rest| < |s|
    decreases |s|, 1
  {
    match ReadValue(s)
    case None => None
    case Some(v) =>
      if v.rest != [] && v.rest[0] == ']' then Some(Found([v.value], v.rest[1..]))
      else if v.rest != [] && v.rest[0] == ',' then
        match ReadItems(v.rest[1..])
        case None => None
        case Some(t) => Some(Found([v.value] + t.value, t.rest))
      else None
  }

  /** One or more members, a quoted key, a colon and a value each, and the closing brace. */
  function ReadMembers(s: string): (r: Option<Found<seq<Entry>>>)
    ensures r.Some? ==> |r.value.rest| < |s|
    decreases |s|, 1
  {
    if s == [] || s[0] != '"' then None
    else match ReadChars(s[1..])
      case None => None
      case Some(k) =>
        if k.rest == [] || k.rest[0] != ':' then None
        else match ReadValue(k.rest[1..])
          case None => None
          case Some(v) =>
            if v.rest != [] && v.rest[0] == '}' then Some(Found([Entry(k.value, v.value)], v.rest[1..]))
            else if v.rest != [] && v.rest[0] == ',' then
              match ReadMembers(v.rest[1..])
              case None => None
              case Some(t) => Some(Found([Entry(k.value, v.value)] + t.value, t.rest))
            else None
  }

  // ----- reading back what was printed -----

  lemma HexDigitReads(n: nat)
    requires n < 16
    ensures HexValue(HexDigit(n)) == Some(n)
  {}

  lemma FourDigits(a: char, b: char, c: char, d: char)
    requires HexValue(a).Some? && HexValue(b).Some? && HexValue(c).Some? && HexValue(d).Some?
    ensures HexNumber([a, b, c, d]) == Some(
      16 * (16 * (16 * HexValue(a).value + HexValue(b).value) + HexValue(c).value) + HexValue(d).value)
  {
    assert [] + [a] == [a] && [a] + [b] == [a, b] && [a, b] + [c] == [a, b, c] && [a, b, c] + [d] == [a, b, c, d];
    assert HexNumber([]) == Some(0);
    HexNext([], a);
    HexNext([a], b);
    HexNext([a, b], c);
    HexNext([a, b, c], d);
  }

  lemma HexNext(s: string, c: char)
    requires HexNumber(s).Some? && HexValue(c).Some?
    ensures HexNumber(s + [c]) == Some(16 * HexNumber(s).value + HexValue(c).value)
  {
    assert (s + [c])[..|s|] == s;
  }

  /** An escaped character is read back as itself. */
  lemma CharReads(c: char, x: string)
    ensures ReadChar(Escape(c) + x) == Some(Found(c, x))
  {
    var s := Escape(c) + x;
    if |Escape(c)| == 6 {
      var high, low := c as int / 16, c as int % 16;
      HexDigitReads(high);
      HexDigitReads(low);
      assert HexValue('0') == Some(0);
      assert s[2..6] == ['0', '0', HexDigit(high), HexDigit(low)];
      FourDigits('0', '0', HexDigit(high), HexDigit(low));
      assert s[6..] == x && s[0] == '\\' && s[1] == 'u';
    } else if |Escape(c)| == 2 {
      assert s[0] == '\\' && s[1] == Escape(c)[1] && s[2..] == x;
    } else {
      assert s[0] == c && s[1..] == x;
    }
  }

  /** A string literal is read back as its string. */
  lemma {:induction false} CharsRead(s: string, x: string)
    ensures ReadChars(Chars(s) + x) == Some(Found(s, x))
  {
    CharsUnfold(s, x);
    var text := Chars(s) + x;
    assert text[0] == Chars(s)[0];
    if s == [] {
      assert text[1..] == x;
    } else {
      CharReads(s[0], Chars(s[1..]) + x);
      CharsRead(s[1..], x);
      assert [s[0]] + s[1..] == s;
    }
  }

  lemma QuoteReads(s: string, x: string)
    ensures |Quote(s) + x| > 0 && (Quote(s) + x)[0] == '"' && ReadChars((Quote(s) + x)[1..]) == Some(Found(s, x))
  {
    assert (Quote(s) + x)[1..] == Chars(s) + x;
    CharsRead(s, x);
  }

  lemma WordReads(word: string, x: string)
    ensures StartsWith(word + x, word) && (word + x)[|word|..] == x
  {}

  lemma WordStarts(s: string, word: string)
    requires word != ""
    ensures StartsWith(s, word) ==> s != "" && s[0] == word[0]
  {
    assert StartsWith(s, word) ==> s[0] == s[..|word|][0];
  }

  /** What starts with another character is not one of the words. */
  lemma NoWord(s: string)
    requires s != [] && s[0] !in {'n', 't', 'f'}
    ensures !StartsWith(s, "null") && !StartsWith(s, "true") && !StartsWith(s, "false")
  {
    WordStarts(s, "null");
    WordStarts(s, "true");
    WordStarts(s, "false");
  }

  lemma NumberReads(text: string, x: string)
    requires IsNumber(text) && Ends(x)
    ensures ReadValue(text + x) == Some(Found(Num(text), x))
  {
    var s := text + x;
    assert s[0] == text[0];
    NoWord(s);
    RunOfNumber(text, x);
    assert s[..|text|] == text && s[|text|..] == x;
  }

  lemma BoolReads(b: bool, x: string)
    ensures ReadValue(Print(Bool(b)) + x) == Some(Found(Bool(b), x))
  {
    var s := Print(Bool(b)) + x;
    WordReads(Print(Bool(b)), x);
    assert s[0] == Print(Bool(b))[0];
    WordStarts(s, "null");
    WordStarts(s, "true");
  }

  /** The reader inverts the printer: a printed value followed by an end or a separator is read back as that value,
      with the same text left over. */
  lemma {:induction false} PrintReads(v: Json, x: string, s: string)
    requires WellFormed(v) && Ends(x) && s == Print(v) + x
    ensures ReadValue(s) == Some(Found(v, x))
    decreases v, 1
  {
    match v
    case Null => WordReads("null", x);
    case Bool(b) => BoolReads(b, x);
    case Num(text) => NumberReads(text, x);
    case Str(t) => StringReads(t, x);
    case Arr(items) => ArrayReads(items, x, s);
    case Obj(entries) => ObjectReads(entries, x, s);
  }

  lemma StringReads(t: string, x: string)
    ensures ReadValue(Quote(t) + x) == Some(Found(Str(t), x))
  {
    QuoteReads(t, x);
    NoWord(Quote(t) + x);
  }

  lemma {:induction false} ArrayReads(items: seq<Json>, x: string, s: string)
    requires (forall i :: 0 <= i < |items| ==> WellFormed(items[i])) && Ends(x)
    requires s == "[" + Items(items) + x
    ensures ReadValue(s) == Some(Found(Arr(items), x))
    decreases items, 1
  {
    var text := Items(items) + x;
    ItemsUnfold(items, x);
    Associate("[", Items(items), x);
    assert text[0] == Items(items)[0];
    if items == [] {
      EmptyArrayReads(text, x, s);
    } else {
      ItemsRead(items, x, text);
      FullArrayReads(items, x, text, s);
    }
  }

  lemma EmptyArrayReads(text: string, x: string, s: string)
    requires s == "[" + text && text == "]" + x
    ensures ReadValue(s) == Some(Found(Arr([]), x))
  {
    assert s[0] == '[' && s[1] == ']' && s[2..] == x;
    NoWord(s);
  }

  lemma FullArrayReads(items: seq<Json>, x: string, text: string, s: string)
    requires s == "[" + text && text != "" && text[0] != ']' && ReadItems(text) == Some(Found(items, x))
    ensures ReadValue(s) == Some(Found(Arr(items), x))
  {
    assert s[0] == '[' && s[1] == text[0] && s[1..] == text;
    NoWord(s);
  }

  lemma {:induction false} ItemsRead(items: seq<Json>, x: string, text: string)
    requires items != [] && (forall i :: 0 <= i < |items| ==> WellFormed(items[i])) && Ends(x)
    requires text == Items(items) + x
    ensures ReadItems(text) == Some(Found(items, x))
    decreases items, 0
  {
    var v, more := items[0], items[1..];
    var after, later := SplitItems(items, x, text);
    PrintReads(v, after, text);
    if more == [] {
      LastItemReads(v, x, after, text);
      assert items == [v];
    } else {
      ItemsRead(more, x, later);
      NextItemReads(v, more, x, after, text, later);
      assert items == [v] + more;
    }
  }

  lemma SplitItems(items: seq<Json>, x: string, text: string) returns (after: string, later: string)
    requires items != [] && (forall i :: 0 <= i < |items| ==> WellFormed(items[i])) && text == Items(items) + x
    ensures text == Print(items[0]) + after && Ends(after)
    ensures items[1..] == [] ==> after == "]" + x
    ensures items[1..] != [] ==> after == "," + later && later == Items(items[1..]) + x
  {
    later := Items(items[1..]) + x;
    after := AfterFirst("]", |items| == 1, Items(items[1..])) + x;
    ItemsUnfold(items, x);
    if |items| > 1 {
      Associate(",", Items(items[1..]), x);
    }
  }

  lemma LastItemReads(v: Json, x: string, after: string, text: string)
    requires after == "]" + x && ReadValue(text) == Some(Found(v, after))
    ensures ReadItems(text) == Some(Found([v], x))
  {
    assert after[0] == ']' && after[1..] == x;
  }

  lemma NextItemReads(v: Json, more: seq<Json>, x: string, after: string, text: string, later: string)
    requires after == "," + later && ReadValue(text) == Some(Found(v, after))
    requires ReadItems(later) == Some(Found(more, x))
    ensures ReadItems(text) == Some(Found([v] + more, x))
  {
    assert after[0] == ',' && after[1..] == later;
  }

  lemma {:induction false} ObjectReads(entries: seq<Entry>, x: string, s: string)
    requires (forall i :: 0 <= i < |entries| ==> WellFormed(entries[i].value)) && Ends(x)
    requires s == "{" + Members(entries) + x
    ensures ReadValue(s) == Some(Found(Obj(entries), x))
    decreases entries, 1
  {
    var text := Members(entries) + x;
    MembersUnfold(entries, x);
    Associate("{", Members(entries), x);
    assert text[0] == Members(entries)[0];
    if entries == [] {
      EmptyObjectReads(text, x, s);
    } else {
      MembersRead(entries, x, text);
      FullObjectReads(entries, x, text, s);
    }
  }

  lemma EmptyObjectReads(text: string, x: string, s: string)
    requires s == "{" + text && text == "}" + x
    ensures ReadValue(s) == Some(Found(Obj([]), x))
  {
    assert s[0] == '{' && s[1] == '}' && s[2..] == x;
    NoWord(s);
  }

  lemma FullObjectReads(entries: seq<Entry>, x: string, text: string, s: string)
    requires s == "{" + text && text != "" && text[0] != '}' && ReadMembers(text) == Some(Found(entries, x))
    ensures ReadValue(s) == Some(Found(Obj(entries), x))
  {
    assert s[0] == '{' && s[1] == text[0] && s[1..] == text;
    NoWord(s);
  }

  lemma {:induction false} MembersRead(entries: seq<Entry>, x: string, text: string)
    requires entries != [] && (forall i :: 0 <= i < |entries| ==> WellFormed(entries[i].value)) && Ends(x)
    requires text == Members(entries) + x
    ensures ReadMembers(text) == Some(Found(entries, x))
    decreases entries, 0
  {
    var e, more := entries[0], entries[1..];
    var tail, after, later := SplitMembers(entries, x, text);
    PrintReads(e.value, after, tail);
    if more == [] {
      LastMemberReads(e, x, after, tail, text);
      assert entries == [e];
    } else {
      MembersRead(more, x, later);
      NextMemberReads(e, more, x, after, tail, later, text);
      assert entries == [e] + more;
    }
  }

  lemma SplitMembers(entries: seq<Entry>, x: string, text: string)
      returns (tail: string, after: string, later: string)
    requires entries != [] && text == Members(entries) + x
    ensures text == Quote(entries[0].key) + (":" + tail) && tail == Print(entries[0].value) + after && Ends(after)
    ensures entries[1..] == [] ==> after == "}" + x
    ensures entries[1..] != [] ==> after == "," + later && later == Members(entries[1..]) + x
  {
    later := Members(entries[1..]) + x;
    after := AfterFirst("}", |entries| == 1, Members(entries[1..])) + x;
    tail := Print(entries[0].value) + after;
    MembersUnfold(entries, x);
    if |entries| > 1 {
      Associate(",", Members(entries[1..]), x);
    }
  }

  lemma KeyReads(key: string, tail: string, text: string)
    requires text == Quote(key) + (":" + tail)
    ensures text != "" && text[0] == '"' && ReadChars(text[1..]) == Some(Found(key, ":" + tail))
  {
    QuoteReads(key, ":" + tail);
  }

  lemma LastMemberReads(e: Entry, x: string, after: string, tail: string, text: string)
    requires text == Quote(e.key) + (":" + tail) && after == "}" + x
    requires ReadValue(tail) == Some(Found(e.value, after))
    ensures ReadMembers(text) == Some(Found([e], x))
  {
    KeyReads(e.key, tail, text);
    assert (":" + tail)[1..] == tail && after[0] == '}' && after[1..] == x;
  }

  lemma NextMemberReads(e: Entry, more: seq<Entry>, x: string, after: string, tail: string, later: string, text: string)
    requires text == Quote(e.key) + (":" + tail) && after == "," + later
    requires ReadValue(tail) == Some(Found(e.value, after)) && ReadMembers(later) == Some(Found(more, x))
    ensures ReadMembers(text) == Some(Found([e] + more, x))
  {
    KeyReads(e.key, tail, text);
    assert (":" + tail)[1..] == tail && after[0] == ',' && after[1..] == later;
  }
}
