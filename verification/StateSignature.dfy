/** Key sorting, and the message a validator signs. */
module StateSignature {
  import opened KeyOrder
  import opened CanonicalJson
  import opened JsonReader
  import opened Wrappers

  // ----- sorting -----

  function InsertEntry(e: Entry, sorted: seq<Entry>): seq<Entry> {
    if sorted == [] || KeyLeq(e.key, sorted[0].key) then [e] + sorted
    else [sorted[0]] + InsertEntry(e, sorted[1..])
  }

  function SortEntries(entries: seq<Entry>): seq<Entry> {
    if entries == [] then [] else InsertEntry(entries[0], SortEntries(entries[1..]))
  }

  ghost predicate Ascending(entries: seq<Entry>) {
    forall i, j :: 0 <= i < j < |entries| ==> KeyLeq(entries[i].key, entries[j].key)
  }

  lemma {:induction false} InsertMembers(e: Entry, sorted: seq<Entry>)
    ensures multiset(InsertEntry(e, sorted)) == multiset(sorted) + multiset{e}
  {
    if sorted == [] || KeyLeq(e.key, sorted[0].key) {
    } else {
      InsertMembers(e, sorted[1..]);
      assert sorted == [sorted[0]] + sorted[1..];
    }
  }

  lemma {:induction false} InsertAscends(e: Entry, sorted: seq<Entry>)
    requires Ascending(sorted)
    ensures Ascending(InsertEntry(e, sorted))
  {
    var r := InsertEntry(e, sorted);
    if sorted == [] {
    } else if KeyLeq(e.key, sorted[0].key) {
      forall j | 0 < j < |r| ensures KeyLeq(r[0].key, r[j].key) {
        if j > 1 {
          KeyTransitive(e.key, sorted[0].key, sorted[j - 1].key);
        }
      }
    } else {
      InsertAscends(e, sorted[1..]);
      InsertMembers(e, sorted[1..]);
      KeyTotal(e.key, sorted[0].key);
      var rest := InsertEntry(e, sorted[1..]);
      forall j | 0 <= j < |rest| ensures KeyLeq(sorted[0].key, rest[j].key) {
        assert rest[j] in multiset(rest);
        if rest[j] != e {
          assert rest[j] in sorted[1..];
          var m :| 0 <= m < |sorted[1..]| && sorted[1..][m] == rest[j];
          assert sorted[m + 1] == rest[j];
        }
      }
    }
  }

  lemma {:induction false} SortIsSorted(entries: seq<Entry>)
    ensures Ascending(SortEntries(entries)) && multiset(SortEntries(entries)) == multiset(entries)
  {
    if entries != [] {
      SortIsSorted(entries[1..]);
      InsertAscends(entries[0], SortEntries(entries[1..]));
      InsertMembers(entries[0], SortEntries(entries[1..]));
      assert entries == [entries[0]] + entries[1..];
    }
  }

  /** An ascending list without repeated keys is determined by its members. */
  lemma {:induction false} AscendingUnique(a: seq<Entry>, b: seq<Entry>)
    requires Ascending(a) && Ascending(b) && DistinctKeys(a) && multiset(a) == multiset(b)
    ensures a == b
  {
    assert |a| == |multiset(a)| == |multiset(b)| == |b|;
    if a != [] {
      SameHead(a, b);
      assert a == [a[0]] + a[1..] && b == [b[0]] + b[1..];
      assert multiset(a[1..]) == multiset(a) - multiset{a[0]};
      assert multiset(b[1..]) == multiset(b) - multiset{b[0]};
      AscendingUnique(a[1..], b[1..]);
    }
  }

  lemma SameHead(a: seq<Entry>, b: seq<Entry>)
    requires Ascending(a) && Ascending(b) && DistinctKeys(a) && multiset(a) == multiset(b) && a != [] && b != []
    ensures a[0] == b[0]
  {
    assert a[0] in multiset(b) && b[0] in multiset(a);
    var i :| 0 <= i < |b| && b[i] == a[0];
    var j :| 0 <= j < |a| && a[j] == b[0];
    LeqReflexive(a[0].key);
    LeqReflexive(b[0].key);
    assert KeyLeq(b[0].key, a[0].key) && KeyLeq(a[0].key, b[0].key);
    KeyAntisymmetric(a[0].key, b[0].key);
  }

  lemma LeqReflexive(k: string)
    ensures KeyLeq(k, k)
  {
    KeyTotal(k, k);
  }

  // ----- canonical form -----

  /** Sort object keys recursively; arrays keep their order. */
  function SortValue(v: Json): Json
    decreases v, 1
  {
    match v
    case Arr(items) => Arr(SortItems(items))
    case Obj(entries) => Obj(SortEntries(SortMembers(entries)))
    case _ => v
  }

  function SortItems(items: seq<Json>): (r: seq<Json>)
    ensures |r| == |items|
    decreases items, 0
  {
    if items == [] then [] else [SortValue(items[0])] + SortItems(items[1..])
  }

  function SortMembers(entries: seq<Entry>): (r: seq<Entry>)
    ensures |r| == |entries|
    decreases entries, 0
  {
    if entries == [] then [] else [Entry(entries[0].key, SortValue(entries[0].value))] + SortMembers(entries[1..])
  }

  function CanonicalJsonStringify(v: Json): string {
    Print(SortValue(v))
  }

  /** Equal up to the order of object keys. */
  ghost predicate Equivalent(v: Json, w: Json)
    decreases v
  {
    match v
    case Arr(items) =>
      w.Arr? && |items| == |w.items| && forall i :: 0 <= i < |items| ==> Equivalent(items[i], w.items[i])
    case Obj(entries) =>
      && w.Obj? && |entries| == |w.entries|
      && forall i :: 0 <= i < |entries| ==> Counterpart(entries[i], w.entries)
    case _ => v == w
  }

  ghost predicate Counterpart(e: Entry, others: seq<Entry>)
    decreases e
  {
    exists j :: 0 <= j < |others| && others[j].key == e.key && Equivalent(e.value, others[j].value)
  }

  lemma {:induction false} SortItemsAt(items: seq<Json>, i: nat)
    requires i < |items|
    ensures SortItems(items)[i] == SortValue(items[i])
  {
    if i > 0 {
      SortItemsAt(items[1..], i - 1);
    }
  }

  lemma {:induction false} SortMembersAt(entries: seq<Entry>, i: nat)
    requires i < |entries|
    ensures SortMembers(entries)[i] == Entry(entries[i].key, SortValue(entries[i].value))
  {
    if i > 0 {
      SortMembersAt(entries[1..], i - 1);
    }
  }

  lemma SortMembersKeys(entries: seq<Entry>)
    requires DistinctKeys(entries)
    ensures DistinctKeys(SortMembers(entries))
  {
    forall i, j | 0 <= i < j < |entries| ensures SortMembers(entries)[i].key != SortMembers(entries)[j].key {
      SortMembersAt(entries, i);
      SortMembersAt(entries, j);
    }
  }

  lemma {:induction false} CountOnce(s: seq<Entry>, e: Entry)
    requires DistinctKeys(s)
    ensures multiset(s)[e] == if e in s then 1 else 0
  {
    if s != [] {
      CountOnce(s[1..], e);
      assert s == [s[0]] + s[1..];
      if e == s[0] {
        assert forall i :: 0 <= i < |s[1..]| ==> s[1..][i].key != e.key;
      }
    }
  }

  lemma ContainedIsEqual(a: multiset<Entry>, b: multiset<Entry>)
    requires a <= b && |a| == |b|
    ensures a == b
  {
    assert b == a + (b - a);
    assert |b| == |a| + |b - a|;
  }

  lemma ContainedEntries(a: seq<Entry>, b: seq<Entry>)
    requires DistinctKeys(a) && DistinctKeys(b) && |a| == |b| && forall i :: 0 <= i < |a| ==> a[i] in b
    ensures multiset(a) == multiset(b)
  {
    forall e ensures multiset(a)[e] <= multiset(b)[e] {
      CountOnce(a, e);
      CountOnce(b, e);
    }
    ContainedIsEqual(multiset(a), multiset(b));
  }

  /** Values that differ only in key order have the same canonical form. */
  lemma {:induction false} EquivalentSortsAlike(v: Json, w: Json)
    requires WellFormed(v) && WellFormed(w) && Equivalent(v, w)
    ensures SortValue(v) == SortValue(w)
    decreases v
  {
    match v
    case Arr(items) =>
      forall i | 0 <= i < |items| ensures SortItems(items)[i] == SortItems(w.items)[i] {
        SortItemsAt(items, i);
        SortItemsAt(w.items, i);
        EquivalentSortsAlike(items[i], w.items[i]);
      }
    case Obj(entries) =>
      var a, b := SortMembers(entries), SortMembers(w.entries);
      forall i | 0 <= i < |a| ensures a[i] in b {
        assert Counterpart(entries[i], w.entries);
        var j :| 0 <= j < |w.entries| && w.entries[j].key == entries[i].key
          && Equivalent(entries[i].value, w.entries[j].value);
        SortMembersAt(entries, i);
        SortMembersAt(w.entries, j);
        EquivalentSortsAlike(entries[i].value, w.entries[j].value);
        assert b[j] == a[i];
      }
      SortMembersKeys(entries);
      SortMembersKeys(w.entries);
      ContainedEntries(a, b);
      SameEntriesSortAlike(a, b);
    case _ =>
  }

  lemma SameEntriesSortAlike(a: seq<Entry>, b: seq<Entry>)
    requires DistinctKeys(a) && multiset(a) == multiset(b)
    ensures SortEntries(a) == SortEntries(b)
  {
    SortIsSorted(a);
    SortIsSorted(b);
    RearrangedKeys(a, SortEntries(a));
    AscendingUnique(SortEntries(a), SortEntries(b));
  }

  lemma RearrangedKeys(a: seq<Entry>, b: seq<Entry>)
    requires DistinctKeys(a) && multiset(a) == multiset(b)
    ensures DistinctKeys(b)
  {
    forall i, j | 0 <= i < j < |b| ensures b[i].key != b[j].key {
      assert b[i] in multiset(a) && b[j] in multiset(a);
      CountOnce(a, b[i]);
      assert b == b[..i] + [b[i]] + b[i + 1..j] + [b[j]] + b[j + 1..];
      assert b[i] != b[j];
      var m :| 0 <= m < |a| && a[m] == b[i];
      var n :| 0 <= n < |a| && a[n] == b[j];
    }
  }

  /** Values with the same canonical form differ only in key order. */
  lemma {:induction false} SortedAlikeIsEquivalent(v: Json, w: Json)
    requires WellFormed(v) && WellFormed(w) && SortValue(v) == SortValue(w)
    ensures Equivalent(v, w)
    decreases v
  {
    match v
    case Arr(items) =>
      forall i | 0 <= i < |items| ensures Equivalent(items[i], w.items[i]) {
        SortItemsAt(items, i);
        SortItemsAt(w.items, i);
        SortedAlikeIsEquivalent(items[i], w.items[i]);
      }
    case Obj(entries) =>
      var a, b := SortMembers(entries), SortMembers(w.entries);
      SortIsSorted(a);
      SortIsSorted(b);
      assert |a| == |multiset(a)| == |multiset(b)| == |b|;
      forall i | 0 <= i < |entries| ensures Counterpart(entries[i], w.entries) {
        assert a[i] in multiset(b);
        var j :| 0 <= j < |b| && b[j] == a[i];
        SortMembersAt(entries, i);
        SortMembersAt(w.entries, j);
        SortedAlikeIsEquivalent(entries[i].value, w.entries[j].value);
      }
    case _ =>
  }

  lemma {:induction false} SortedIsWellFormed(v: Json)
    requires WellFormed(v)
    ensures WellFormed(SortValue(v))
    decreases v
  {
    match v
    case Arr(items) =>
      forall i | 0 <= i < |items| ensures WellFormed(SortItems(items)[i]) {
        SortItemsAt(items, i);
        SortedIsWellFormed(items[i]);
      }
    case Obj(entries) =>
      var a := SortMembers(entries);
      SortMembersKeys(entries);
      SortIsSorted(a);
      RearrangedKeys(a, SortEntries(a));
      forall i | 0 <= i < |SortEntries(a)| ensures WellFormed(SortEntries(a)[i].value) {
        assert SortEntries(a)[i] in multiset(a);
        var j :| 0 <= j < |a| && a[j] == SortEntries(a)[i];
        SortMembersAt(entries, j);
        SortedIsWellFormed(entries[j].value);
      }
    case _ =>
  }

  /** Canonical texts coincide exactly on values that are equal up to key order. */
  lemma CanonicalTextIsFaithful(v: Json, w: Json)
    requires WellFormed(v) && WellFormed(w)
    ensures CanonicalJsonStringify(v) == CanonicalJsonStringify(w) <==> Equivalent(v, w)
  {
    SortedIsWellFormed(v);
    SortedIsWellFormed(w);
    if CanonicalJsonStringify(v) == CanonicalJsonStringify(w) {
      assert Print(SortValue(v)) + "" == Print(SortValue(w)) + "";
      PrintInjective(SortValue(v), SortValue(w), "", "");
      SortedAlikeIsEquivalent(v, w);
    }
    if Equivalent(v, w) {
      EquivalentSortsAlike(v, w);
    }
  }

  /** A JSON reader gets the sorted value back from the canonical text, with nothing left over. */
  lemma CanonicalTextReadsBack(v: Json)
    requires WellFormed(v)
    ensures ReadValue(CanonicalJsonStringify(v)) == Some(Found(SortValue(v), ""))
  {
    SortedIsWellFormed(v);
    assert CanonicalJsonStringify(v) == Print(SortValue(v)) + "";
    PrintReads(SortValue(v), "", CanonicalJsonStringify(v));
  }

  // ----- the signing message -----

  /** What is attested. `blockHeight` is the text of a number. */
  datatype Attestation = Attestation(key: string, blockHeight: string, nonce: string, observedAt: string, value: Json)

  const DOMAIN := "oxscada-state-v2"

  function Line(s: string, rest: string): string {
    s + "\n" + rest
  }

  function BuildStateSigningMessage(a: Attestation): string {
    Line(DOMAIN, Line(a.key, Line(a.blockHeight, Line(a.nonce, Line(a.observedAt, CanonicalJsonStringify(a.value))))))
  }

  predicate NewlineFree(s: string) {
    forall i :: 0 <= i < |s| ==> s[i] != '\n'
  }

  function LineLength(text: string): nat {
    if text == [] || text[0] == '\n' then 0 else 1 + LineLength(text[1..])
  }

  lemma {:induction false} LengthOfLine(s: string, rest: string)
    requires NewlineFree(s)
    ensures LineLength(Line(s, rest)) == |s|
  {
    if s == [] {
      assert Line(s, rest)[0] == '\n';
    } else {
      assert Line(s, rest)[0] == s[0] && Line(s, rest)[1..] == Line(s[1..], rest);
      LengthOfLine(s[1..], rest);
    }
  }

  lemma LineInjective(s: string, t: string, x: string, y: string)
    requires NewlineFree(s) && NewlineFree(t) && Line(s, x) == Line(t, y)
    ensures s == t && x == y
  {
    LengthOfLine(s, x);
    LengthOfLine(t, y);
    assert s == Line(s, x)[..|s|] && t == Line(t, y)[..|t|];
    assert x == Line(s, x)[|s| + 1..] && y == Line(t, y)[|t| + 1..];
  }

  /** A text is split at its last newline in only one way. */
  lemma LastLineInjective(s: string, t: string, x: string, y: string)
    requires NewlineFree(x) && NewlineFree(y) && Line(s, x) == Line(t, y)
    ensures s == t && x == y
  {
    LastNewline(s, x);
    LastNewline(t, y);
    assert |s| == |t|;
    var l := Line(s, x);
    assert s == l[..|s|] && t == l[..|t|] && x == l[|s| + 1..] && y == l[|t| + 1..];
  }

  lemma LastNewline(s: string, x: string)
    requires NewlineFree(x)
    ensures Line(s, x)[|s|] == '\n' && forall i :: |s| < i < |Line(s, x)| ==> Line(s, x)[i] != '\n'
  {}

  lemma LineAssociates(a: string, b: string, c: string)
    ensures Line(a, Line(b, c)) == Line(Line(a, b), c)
  {}

  // ----- the canonical text is one line -----

  lemma NewlineFreeSum(a: string, b: string)
    requires NewlineFree(a) && NewlineFree(b)
    ensures NewlineFree(a + b)
  {}

  lemma EscapeIsOneLine(c: char)
    ensures NewlineFree(Escape(c))
  {}

  lemma {:induction false} CharsAreOneLine(s: string)
    ensures NewlineFree(Chars(s))
  {
    if s != [] {
      EscapeIsOneLine(s[0]);
      CharsAreOneLine(s[1..]);
      NewlineFreeSum(Escape(s[0]), Chars(s[1..]));
    }
  }

  lemma QuoteIsOneLine(s: string)
    ensures NewlineFree(Quote(s))
  {
    CharsAreOneLine(s);
    NewlineFreeSum("\"", Chars(s));
  }

  lemma {:induction false} PrintIsOneLine(v: Json)
    requires WellFormed(v)
    ensures NewlineFree(Print(v))
    decreases v, 1
  {
    match v
    case Null =>
    case Bool(_) =>
    case Num(_) =>
    case Str(s) => QuoteIsOneLine(s);
    case Arr(items) =>
      ItemsAreOneLine(items);
      NewlineFreeSum("[", Items(items));
    case Obj(entries) =>
      MembersAreOneLine(entries);
      NewlineFreeSum("{", Members(entries));
  }

  lemma {:induction false} ItemsAreOneLine(items: seq<Json>)
    requires forall i :: 0 <= i < |items| ==> WellFormed(items[i])
    ensures NewlineFree(Items(items))
    decreases items, 0
  {
    if items != [] {
      PrintIsOneLine(items[0]);
      ItemsAreOneLine(items[1..]);
      NewlineFreeSum(",", Items(items[1..]));
      NewlineFreeSum(Print(items[0]), if |items| == 1 then "]" else "," + Items(items[1..]));
    }
  }

  lemma {:induction false} MembersAreOneLine(entries: seq<Entry>)
    requires forall i :: 0 <= i < |entries| ==> WellFormed(entries[i].value)
    ensures NewlineFree(Members(entries))
    decreases entries, 0
  {
    if entries != [] {
      var q, p := Quote(entries[0].key), Print(entries[0].value);
      QuoteIsOneLine(entries[0].key);
      PrintIsOneLine(entries[0].value);
      MembersAreOneLine(entries[1..]);
      NewlineFreeSum(",", Members(entries[1..]));
      NewlineFreeSum(q, ":");
      NewlineFreeSum(q + ":", p);
      NewlineFreeSum(q + ":" + p, if |entries| == 1 then "}" else "," + Members(entries[1..]));
    }
  }

  /** Whatever the value, its canonical text holds no newline. */
  lemma CanonicalTextIsOneLine(v: Json)
    requires WellFormed(v)
    ensures NewlineFree(CanonicalJsonStringify(v))
  {
    SortedIsWellFormed(v);
    PrintIsOneLine(SortValue(v));
  }

  // ----- when the message is injective -----

  /** The fields of free text. */
  datatype Field = Key | Nonce | ObservedAt

  function TextOf(a: Attestation, f: Field): string {
    match f
    case Key => a.key
    case Nonce => a.nonce
    case ObservedAt => a.observedAt
  }

  /** A value to attest whose height is a number and whose free texts hold newlines only in the given fields. */
  ghost predicate Attestable(a: Attestation, multiline: set<Field>) {
    && WellFormed(a.value) && IsNumber(a.blockHeight)
    && forall f: Field :: f !in multiline ==> NewlineFree(TextOf(a, f))
  }

  /** The two attestations say the same thing. */
  ghost predicate SameStatement(a: Attestation, b: Attestation) {
    a.(value := Null) == b.(value := Null) && Equivalent(a.value, b.value)
  }

  ghost predicate Injective(multiline: set<Field>) {
    forall a: Attestation, b: Attestation :: Attestable(a, multiline) && Attestable(b, multiline) ==>
      (BuildStateSigningMessage(a) == BuildStateSigningMessage(b) <==> SameStatement(a, b))
  }

  lemma SameStatementSameMessage(a: Attestation, b: Attestation)
    requires WellFormed(a.value) && WellFormed(b.value) && SameStatement(a, b)
    ensures BuildStateSigningMessage(a) == BuildStateSigningMessage(b)
  {
    CanonicalTextIsFaithful(a.value, b.value);
  }

  /** The message splits into the domain line, the texts before, and the texts after. */
  function Tail(a: Attestation): string {
    Line(a.nonce, Line(a.observedAt, CanonicalJsonStringify(a.value)))
  }

  lemma TailInjective(a: Attestation, b: Attestation)
    requires WellFormed(a.value) && WellFormed(b.value) && Tail(a) == Tail(b)
    requires (NewlineFree(a.nonce) && NewlineFree(b.nonce)) || (NewlineFree(a.observedAt) && NewlineFree(b.observedAt))
    ensures a.nonce == b.nonce && a.observedAt == b.observedAt
    ensures CanonicalJsonStringify(a.value) == CanonicalJsonStringify(b.value)
  {
    var va, vb := CanonicalJsonStringify(a.value), CanonicalJsonStringify(b.value);
    CanonicalTextIsOneLine(a.value);
    CanonicalTextIsOneLine(b.value);
    if NewlineFree(a.nonce) && NewlineFree(b.nonce) {
      LineInjective(a.nonce, b.nonce, Line(a.observedAt, va), Line(b.observedAt, vb));
      LastLineInjective(a.observedAt, b.observedAt, va, vb);
    } else {
      LineAssociates(a.nonce, a.observedAt, va);
      LineAssociates(b.nonce, b.observedAt, vb);
      LastLineInjective(Line(a.nonce, a.observedAt), Line(b.nonce, b.observedAt), va, vb);
      LastLineInjective(a.nonce, b.nonce, a.observedAt, b.observedAt);
    }
  }

  /** The key may hold newlines when the nonce and the time do not: everything after it is split off from the end. */
  lemma MultilineKeyInjective(a: Attestation, b: Attestation)
    requires Attestable(a, {Key}) && Attestable(b, {Key})
    requires Line(a.key, Line(a.blockHeight, Tail(a))) == Line(b.key, Line(b.blockHeight, Tail(b)))
    ensures a.(value := Null) == b.(value := Null)
    ensures CanonicalJsonStringify(a.value) == CanonicalJsonStringify(b.value)
  {
    var va, vb := CanonicalJsonStringify(a.value), CanonicalJsonStringify(b.value);
    CanonicalTextIsOneLine(a.value);
    CanonicalTextIsOneLine(b.value);
    assert NewlineFree(TextOf(a, Nonce)) && NewlineFree(TextOf(b, Nonce));
    assert NewlineFree(TextOf(a, ObservedAt)) && NewlineFree(TextOf(b, ObservedAt));
    FromTheEnd(a, va);
    FromTheEnd(b, vb);
    var ha, hb := Line(a.key, a.blockHeight), Line(b.key, b.blockHeight);
    var na, nb := Line(ha, a.nonce), Line(hb, b.nonce);
    LastLineInjective(Line(na, a.observedAt), Line(nb, b.observedAt), va, vb);
    LastLineInjective(na, nb, a.observedAt, b.observedAt);
    LastLineInjective(ha, hb, a.nonce, b.nonce);
    LastLineInjective(a.key, b.key, a.blockHeight, b.blockHeight);
  }

  lemma FromTheEnd(a: Attestation, v: string)
    ensures Line(a.key, Line(a.blockHeight, Line(a.nonce, Line(a.observedAt, v))))
      == Line(Line(Line(Line(a.key, a.blockHeight), a.nonce), a.observedAt), v)
  {
    LineAssociates(a.key, a.blockHeight, Line(a.nonce, Line(a.observedAt, v)));
    LineAssociates(Line(a.key, a.blockHeight), a.nonce, Line(a.observedAt, v));
    LineAssociates(Line(Line(a.key, a.blockHeight), a.nonce), a.observedAt, v);
  }

  /** With newlines in at most one of the free texts, equal messages say the same thing. */
  lemma OneMultilineFieldInjective(a: Attestation, b: Attestation, f: Field)
    requires Attestable(a, {f}) && Attestable(b, {f}) && BuildStateSigningMessage(a) == BuildStateSigningMessage(b)
    ensures SameStatement(a, b)
  {
    var ra, rb := Line(a.key, Line(a.blockHeight, Tail(a))), Line(b.key, Line(b.blockHeight, Tail(b)));
    LineInjective(DOMAIN, DOMAIN, ra, rb);
    if f == Key {
      MultilineKeyInjective(a, b);
    } else {
      assert NewlineFree(TextOf(a, Key)) && NewlineFree(TextOf(b, Key));
      LineInjective(a.key, b.key, Line(a.blockHeight, Tail(a)), Line(b.blockHeight, Tail(b)));
      LineInjective(a.blockHeight, b.blockHeight, Tail(a), Tail(b));
      var g := if f == Nonce then ObservedAt else Nonce;
      assert NewlineFree(TextOf(a, g)) && NewlineFree(TextOf(b, g));
      TailInjective(a, b);
    }
    CanonicalTextIsFaithful(a.value, b.value);
  }

  /** Newlines in two fields collide: each field takes over a line of the other. */
  function Collision(f: Field, g: Field): (Attestation, Attestation) {
    if f != Key && g != Key then
      (Attestation("k", "1", Line("2", "x"), "o", Null), Attestation("k", "1", "2", Line("x", "o"), Null))
    else if f == Nonce || g == Nonce then
      (Attestation("k", "1", Line("2", "x"), "o", Null), Attestation(Line("k", "1"), "2", "x", "o", Null))
    else
      (Attestation("k", "1", "2", Line("x", "o"), Null), Attestation(Line("k", "1"), "2", "x", "o", Null))
  }

  /** The three ways to cut the lines k, 1, 2, x, o into fields. */
  lemma SameLines(v: string)
    ensures Line("k", Line("1", Line(Line("2", "x"), Line("o", v)))) ==
      Line("k", Line("1", Line("2", Line(Line("x", "o"), v))))
    ensures Line("k", Line("1", Line("2", Line(Line("x", "o"), v))))
      == Line(Line("k", "1"), Line("2", Line("x", Line("o", v))))
  {
    LineAssociates("2", "x", Line("o", v));
    LineAssociates("x", "o", v);
    LineAssociates("k", "1", Line("2", Line("x", Line("o", v))));
  }

  lemma CollisionIsAttestable(f: Field, g: Field)
    requires f != g
    ensures Attestable(Collision(f, g).0, {f, g}) && Attestable(Collision(f, g).1, {f, g})
  {}

  lemma CollisionCollides(f: Field, g: Field)
    requires f != g
    ensures !SameStatement(Collision(f, g).0, Collision(f, g).1)
    ensures BuildStateSigningMessage(Collision(f, g).0) == BuildStateSigningMessage(Collision(f, g).1)
  {
    var (a, b) := Collision(f, g);
    SameLines(CanonicalJsonStringify(Null));
    assert |a.nonce| != |b.nonce| || |a.key| != |b.key|;
  }

  lemma AttestableMonotone(a: Attestation, few: set<Field>, many: set<Field>)
    requires Attestable(a, few) && few <= many
    ensures Attestable(a, many)
  {}

  /** Exactly when the message is injective: newlines may occur in at most one of key, nonce and time. Two
      attestations then give the same message if and only if all fields are equal and the values equal up to
      key order; and as soon as two fields may hold newlines, two different statements share a message. */
  lemma SigningMessageIsInjective(multiline: set<Field>)
    ensures Injective(multiline) <==> |multiline| <= 1
  {
    if |multiline| <= 1 {
      var f := if multiline == {} then Key else var f :| f in multiline; f;
      AtMostOne(multiline, f);
      forall a: Attestation, b: Attestation | Attestable(a, multiline) && Attestable(b, multiline)
        ensures BuildStateSigningMessage(a) == BuildStateSigningMessage(b) <==> SameStatement(a, b)
      {
        AttestableMonotone(a, multiline, {f});
        AttestableMonotone(b, multiline, {f});
        if BuildStateSigningMessage(a) == BuildStateSigningMessage(b) {
          OneMultilineFieldInjective(a, b, f);
        } else if SameStatement(a, b) {
          SameStatementSameMessage(a, b);
        }
      }
    } else {
      var f :| f in multiline;
      var rest := multiline - {f};
      assert |rest| > 0;
      var g :| g in rest;
      CollisionIsAttestable(f, g);
      CollisionCollides(f, g);
      var (a, b) := Collision(f, g);
      AttestableMonotone(a, {f, g}, multiline);
      AttestableMonotone(b, {f, g}, multiline);
    }
  }

  lemma AtMostOne(multiline: set<Field>, f: Field)
    requires |multiline| <= 1 && (multiline == {} || f in multiline)
    ensures multiline <= {f}
  {
    if multiline != {} {
      assert multiline == {f} + (multiline - {f});
      assert |multiline - {f}| == 0;
    }
  }
}
