/** Canonical JSON and the message a validator signs. */
module CanonicalJson {
  import opened KeyOrder

  /** A JSON value. A number is represented by the text it is printed as. */
  datatype Json =
    | Null
    | Bool(b: bool)
    | Num(text: string)
    | Str(s: string)
    | Arr(items: seq<Json>)
    | Obj(entries: seq<Entry>)

  datatype Entry = Entry(key: string, value: Json)

  predicate IsNumeric(c: char) {
    IsDigit(c) || c in {'-', '+', '.', 'e'}
  }

  predicate IsNumber(text: string) {
    |text| > 0 && (IsDigit(text[0]) || text[0] == '-') && forall i :: 0 <= i < |text| ==> IsNumeric(text[i])
  }

  ghost predicate DistinctKeys(entries: seq<Entry>) {
    forall i, j :: 0 <= i < j < |entries| ==> entries[i].key != entries[j].key
  }

  /** Numbers are number texts, and no object repeats a key. */
  ghost predicate WellFormed(v: Json) {
    match v
    case Num(text) => IsNumber(text)
    case Arr(items) => forall i :: 0 <= i < |items| ==> WellFormed(items[i])
    case Obj(entries) => DistinctKeys(entries) && forall i :: 0 <= i < |entries| ==> WellFormed(entries[i].value)
    case _ => true
  }

  // ----- printing (sections 4 and 7 of RFC 8259) -----

  function HexDigit(n: nat): char
    requires n < 16
  {
    "0123456789abcdef"[n]
  }

  function Escape(c: char): string {
    if c == '"' then "\\\""
    else if c == '\\' then "\\\\"
    else if c == '\U{8}' then "\\b"
    else if c == '\t' then "\\t"
    else if c == '\n' then "\\n"
    else if c == '\U{C}' then "\\f"
    else if c == '\r' then "\\r"
    else if c < ' ' then "\\u00" + [HexDigit(c as int / 16), HexDigit(c as int % 16)]
    else [c]
  }

  /** The rest of a string literal: the escaped characters and the closing quote. */
  function Chars(s: string): string {
    if s == [] then "\"" else Escape(s[0]) + Chars(s[1..])
  }

  function Quote(s: string): string {
    "\"" + Chars(s)
  }

  function Print(v: Json): string
    decreases v, 1
  {
    match v
    case Null => "null"
    case Bool(b) => if b then "true" else "false"
    case Num(text) => text
    case Str(s) => Quote(s)
    case Arr(items) => "[" + Items(items)
    case Obj(entries) => "{" + Members(entries)
  }

  /** Elements and the closing bracket. */
  function Items(items: seq<Json>): string
    decreases items, 0
  {
    if items == [] then "]"
    else Print(items[0]) + if |items| == 1 then "]" else "," + Items(items[1..])
  }

  /** Members and the closing brace. */
  function Members(entries: seq<Entry>): string
    decreases entries, 0
  {
    if entries == [] then "}"
    else
      Quote(entries[0].key) + ":" + Print(entries[0].value)
      + if |entries| == 1 then "}" else "," + Members(entries[1..])
  }

  // ----- the printer is injective -----

  lemma EscapeIsPrefixCode(c: char, d: char, x: string, y: string)
    requires Escape(c) + x == Escape(d) + y
    ensures c == d && x == y
  {
    var l, r := Escape(c) + x, Escape(d) + y;
    assert l[0] == Escape(c)[0] && r[0] == Escape(d)[0];
    if |Escape(c)| >= 2 {
      assert l[1] == Escape(c)[1];
    }
    if |Escape(d)| >= 2 {
      assert r[1] == Escape(d)[1];
    }
    if |Escape(c)| == 6 && |Escape(d)| == 6 {
      assert l[4] == Escape(c)[4] && l[5] == Escape(c)[5] && r[4] == Escape(d)[4] && r[5] == Escape(d)[5];
      HexDigitInjective(c as int / 16, d as int / 16);
      HexDigitInjective(c as int % 16, d as int % 16);
    }
    assert |Escape(c)| == |Escape(d)|;
    assert x == l[|Escape(c)|..] && y == r[|Escape(d)|..];
  }

  lemma HexDigitInjective(m: nat, n: nat)
    requires m < 16 && n < 16 && HexDigit(m) == HexDigit(n)
    ensures m == n
  {}

  lemma Cancel(prefix: string, a: string, b: string)
    requires prefix + a == prefix + b
    ensures a == b
  {
    assert a == (prefix + a)[|prefix|..] && b == (prefix + b)[|prefix|..];
  }

  lemma Associate(a: string, b: string, c: string)
    ensures a + b + c == a + (b + c)
  {}

  lemma Peel(c: string, a: string, b: string, x: string, y: string)
    requires c + a + x == c + b + y
    ensures a + x == b + y
  {
    assert c + a + x == c + (a + x) && c + b + y == c + (b + y);
    Cancel(c, a + x, b + y);
  }

  lemma EscapeNeverCloses(c: char)
    ensures |Escape(c)| > 0 && Escape(c)[0] != '"'
  {}

  lemma CharsUnfold(s: string, x: string)
    ensures |Chars(s)| > 0 && (Chars(s)[0] == '"' <==> s == [])
    ensures s != [] ==> Chars(s) + x == Escape(s[0]) + (Chars(s[1..]) + x)
  {
    if s != [] {
      EscapeNeverCloses(s[0]);
      FirstOfSum(Escape(s[0]), Chars(s[1..]));
      Associate(Escape(s[0]), Chars(s[1..]), x);
    }
  }

  lemma FirstOfSum(a: string, b: string)
    requires a != []
    ensures (a + b)[0] == a[0]
  {}

  lemma {:induction false} CharsInjective(s: string, t: string, x: string, y: string)
    requires Chars(s) + x == Chars(t) + y
    ensures s == t && x == y
    decreases |s| + |t|
  {
    CharsUnfold(s, x);
    CharsUnfold(t, y);
    assert Chars(s)[0] == (Chars(s) + x)[0] == (Chars(t) + y)[0] == Chars(t)[0];
    if s == [] {
      Cancel("\"", x, y);
    } else {
      EscapeIsPrefixCode(s[0], t[0], Chars(s[1..]) + x, Chars(t[1..]) + y);
      CharsInjective(s[1..], t[1..], x, y);
      assert s == [s[0]] + s[1..] && t == [t[0]] + t[1..];
    }
  }

  lemma QuoteInjective(s: string, t: string, x: string, y: string)
    requires Quote(s) + x == Quote(t) + y
    ensures s == t && x == y
  {
    Peel("\"", Chars(s), Chars(t), x, y);
    CharsInjective(s, t, x, y);
  }

  /** What may follow a value: the end of the text, a comma, or a closing bracket. */
  predicate Ends(rest: string) {
    rest == [] || rest[0] in {',', ']', '}'}
  }

  function NumericRun(text: string): nat {
    if text == [] || !IsNumeric(text[0]) then 0 else 1 + NumericRun(text[1..])
  }

  lemma {:induction false} RunOfNumber(a: string, x: string)
    requires (forall i :: 0 <= i < |a| ==> IsNumeric(a[i])) && Ends(x)
    ensures NumericRun(a + x) == |a|
  {
    if a == [] {
      assert a + x == x;
    } else {
      assert (a + x)[1..] == a[1..] + x;
      RunOfNumber(a[1..], x);
    }
  }

  lemma NumberInjective(a: string, b: string, x: string, y: string)
    requires (forall i :: 0 <= i < |a| ==> IsNumeric(a[i])) && (forall i :: 0 <= i < |b| ==> IsNumeric(b[i]))
    requires Ends(x) && Ends(y) && a + x == b + y
    ensures a == b && x == y
  {
    RunOfNumber(a, x);
    RunOfNumber(b, y);
    assert a == (a + x)[..|a|] && b == (b + y)[..|b|] && x == (a + x)[|a|..] && y == (b + y)[|b|..];
  }

  datatype Shape = NullShape | TrueShape | FalseShape | NumShape | StrShape | ArrShape | ObjShape

  function ShapeOf(v: Json): Shape {
    match v
    case Null => NullShape
    case Bool(b) => if b then TrueShape else FalseShape
    case Num(_) => NumShape
    case Str(_) => StrShape
    case Arr(_) => ArrShape
    case Obj(_) => ObjShape
  }

  predicate Starts(shape: Shape, c: char) {
    match shape
    case NullShape => c == 'n'
    case TrueShape => c == 't'
    case FalseShape => c == 'f'
    case NumShape => IsDigit(c) || c == '-'
    case StrShape => c == '"'
    case ArrShape => c == '['
    case ObjShape => c == '{'
  }

  lemma PrintStarts(v: Json)
    requires WellFormed(v)
    ensures |Print(v)| > 0 && Starts(ShapeOf(v), Print(v)[0])
  {}

  lemma SameShape(v: Json, w: Json, x: string, y: string)
    requires WellFormed(v) && WellFormed(w) && Print(v) + x == Print(w) + y
    ensures ShapeOf(v) == ShapeOf(w)
  {
    PrintStarts(v);
    PrintStarts(w);
    assert Print(v)[0] == (Print(v) + x)[0] == (Print(w) + y)[0] == Print(w)[0];
  }

  /** A printed value can be read back in only one way. */
  lemma {:induction false} PrintInjective(v: Json, w: Json, x: string, y: string)
    requires WellFormed(v) && WellFormed(w) && Ends(x) && Ends(y)
    requires Print(v) + x == Print(w) + y
    ensures v == w && x == y
    decreases v, 1
  {
    SameShape(v, w, x, y);
    match v
    case Null => Cancel("null", x, y);
    case Bool(b) => Cancel(Print(v), x, y);
    case Num(text) => NumberInjective(text, w.text, x, y);
    case Str(s) => QuoteInjective(s, w.s, x, y);
    case Arr(items) =>
      Peel("[", Items(items), Items(w.items), x, y);
      ItemsInjective(items, w.items, x, y);
    case Obj(entries) =>
      Peel("{", Members(entries), Members(w.entries), x, y);
      MembersInjective(entries, w.entries, x, y);
  }

  /** What follows the first element or member: the closing bracket or a comma and the rest. */
  function AfterFirst(close: string, last: bool, rest: string): string {
    if last then close else "," + rest
  }

  lemma {:induction false} ItemsUnfold(items: seq<Json>, x: string)
    requires forall i :: 0 <= i < |items| ==> WellFormed(items[i])
    ensures |Items(items)| > 0 && (Items(items)[0] == ']' <==> items == [])
    ensures items != [] ==> Items(items) + x == Print(items[0]) + (AfterFirst("]", |items| == 1, Items(items[1..])) + x)
  {
    if items != [] {
      PrintStarts(items[0]);
      Associate(Print(items[0]), AfterFirst("]", |items| == 1, Items(items[1..])), x);
    }
  }

  lemma AfterFirstInjective(close: string, la: bool, ra: string, x: string, lb: bool, rb: string, y: string)
    requires close == "]" || close == "}"
    requires AfterFirst(close, la, ra) + x == AfterFirst(close, lb, rb) + y
    ensures la == lb && if la then x == y else ra + x == rb + y
  {
    var l, r := AfterFirst(close, la, ra) + x, AfterFirst(close, lb, rb) + y;
    assert l[0] == (if la then close[0] else ',') && r[0] == (if lb then close[0] else ',');
    if la {
      Cancel(close, x, y);
    } else {
      Peel(",", ra, rb, x, y);
    }
  }

  lemma {:induction false} ItemsInjective(a: seq<Json>, b: seq<Json>, x: string, y: string)
    requires (forall i :: 0 <= i < |a| ==> WellFormed(a[i])) && (forall i :: 0 <= i < |b| ==> WellFormed(b[i]))
    requires Items(a) + x == Items(b) + y
    ensures a == b && x == y
    decreases a, 0
  {
    ItemsUnfold(a, x);
    ItemsUnfold(b, y);
    assert Items(a)[0] == (Items(a) + x)[0] == (Items(b) + y)[0] == Items(b)[0];
    if a == [] {
      Cancel("]", x, y);
    } else {
      var ra, rb := Items(a[1..]), Items(b[1..]);
      PrintInjective(a[0], b[0], AfterFirst("]", |a| == 1, ra) + x, AfterFirst("]", |b| == 1, rb) + y);
      AfterFirstInjective("]", |a| == 1, ra, x, |b| == 1, rb, y);
      if |a| > 1 {
        ItemsInjective(a[1..], b[1..], x, y);
      }
      assert a == [a[0]] + a[1..] && b == [b[0]] + b[1..];
    }
  }

  lemma {:induction false} MembersUnfold(entries: seq<Entry>, x: string)
    ensures |Members(entries)| > 0 && (Members(entries)[0] == '}' <==> entries == [])
    ensures entries != [] ==>
      (Members(entries) + x == Quote(entries[0].key) +
        (":" + (Print(entries[0].value) + (AfterFirst("}", |entries| == 1, Members(entries[1..])) + x))))
  {
    if entries != [] {
      var q, p, r := Quote(entries[0].key), Print(entries[0].value),
        AfterFirst("}", |entries| == 1, Members(entries[1..]));
      assert Members(entries) == q + ":" + p + r;
      Associate(q + ":" + p, r, x);
      Associate(q + ":", p, r + x);
      Associate(q, ":", p + (r + x));
    }
  }

  lemma {:induction false} MembersInjective(a: seq<Entry>, b: seq<Entry>, x: string, y: string)
    requires (forall i :: 0 <= i < |a| ==> WellFormed(a[i].value))
      && (forall i :: 0 <= i < |b| ==> WellFormed(b[i].value))
    requires Members(a) + x == Members(b) + y
    ensures a == b && x == y
    decreases a, 0
  {
    MembersUnfold(a, x);
    MembersUnfold(b, y);
    assert Members(a)[0] == (Members(a) + x)[0] == (Members(b) + y)[0] == Members(b)[0];
    if a == [] {
      Cancel("}", x, y);
    } else {
      var ra, rb := AfterFirst("}", |a| == 1, Members(a[1..])) + x, AfterFirst("}", |b| == 1, Members(b[1..])) + y;
      QuoteInjective(a[0].key, b[0].key, ":" + (Print(a[0].value) + ra), ":" + (Print(b[0].value) + rb));
      Cancel(":", Print(a[0].value) + ra, Print(b[0].value) + rb);
      PrintInjective(a[0].value, b[0].value, ra, rb);
      AfterFirstInjective("}", |a| == 1, Members(a[1..]), x, |b| == 1, Members(b[1..]), y);
      if |a| > 1 {
        MembersInjective(a[1..], b[1..], x, y);
      }
      assert a == [a[0]] + a[1..] && b == [b[0]] + b[1..];
    }
  }
}
