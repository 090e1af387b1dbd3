/**
 Canonical JSON text and the handshake message built on it
 (packages/remote-core/src/auth.ts). Texts are sequences of UTF-16 code units,
 as JavaScript strings are.
 */
module CanonicalJson {
  import opened Wrappers

  type Unit = u: int | 0 <= u < 0x1_0000
  type Text = seq<Unit>

  const QUOTE: Unit := 0x22
  const BACKSLASH: Unit := 0x5C
  const COMMA: Unit := 0x2C
  const COLON: Unit := 0x3A
  const OPEN_BRACKET: Unit := 0x5B
  const CLOSE_BRACKET: Unit := 0x5D
  const OPEN_BRACE: Unit := 0x7B
  const CLOSE_BRACE: Unit := 0x7D
  const LETTER_B: Unit := 0x62
  const LETTER_F: Unit := 0x66
  const LETTER_N: Unit := 0x6E
  const LETTER_R: Unit := 0x72
  const LETTER_T: Unit := 0x74
  const LETTER_U: Unit := 0x75
  const NULL_TEXT: Text := [0x6E, 0x75, 0x6C, 0x6C]
  const TRUE_TEXT: Text := [0x74, 0x72, 0x75, 0x65]
  const FALSE_TEXT: Text := [0x66, 0x61, 0x6C, 0x73, 0x65]
  const ZERO_TEXT: Text := [0x30]

  // ---------------------------------------------------------------- strings

  predicate High(u: Unit) { 0xD800 <= u < 0xDC00 }

  predicate Low(u: Unit) { 0xDC00 <= u < 0xE000 }

  function HexDigit(d: int): Unit
    requires 0 <= d < 16
  {
    if d < 10 then 0x30 + d else 0x57 + d
  }

  function HexValue(u: Unit): int {
    if u < 0x57 then u - 0x30 else u - 0x57
  }

  /** How one unit outside a surrogate pair is written inside quotes. */
  function EscapeUnit(u: Unit): Text {
    if u == QUOTE || u == BACKSLASH then [BACKSLASH, u]
    else if u == 8 then [BACKSLASH, LETTER_B]
    else if u == 9 then [BACKSLASH, LETTER_T]
    else if u == 10 then [BACKSLASH, LETTER_N]
    else if u == 12 then [BACKSLASH, LETTER_F]
    else if u == 13 then [BACKSLASH, LETTER_R]
    else if u < 0x20 || High(u) || Low(u) then
      [BACKSLASH, LETTER_U, HexDigit(u / 0x10 / 0x10 / 0x10 % 0x10), HexDigit(u / 0x10 / 0x10 % 0x10), HexDigit(u / 0x10 % 0x10), HexDigit(u % 0x10)]
    else [u]
  }

  function Escape(s: Text): Text {
    if s == [] then []
    else if |s| >= 2 && High(s[0]) && Low(s[1]) then [s[0], s[1]] + Escape(s[2..])
    else EscapeUnit(s[0]) + Escape(s[1..])
  }

  function Quoted(s: Text): Text {
    [QUOTE] + Escape(s) + [QUOTE]
  }

  /** One escaped unit off the front of a text, and how many units it took. */
  function ReadUnit(t: Text): (int, nat)
    requires t != []
  {
    if t[0] != BACKSLASH || |t| < 2 then (t[0], 1)
    else if t[1] == LETTER_B then (8, 2)
    else if t[1] == LETTER_T then (9, 2)
    else if t[1] == LETTER_N then (10, 2)
    else if t[1] == LETTER_F then (12, 2)
    else if t[1] == LETTER_R then (13, 2)
    else if t[1] == LETTER_U && |t| >= 6
    then (HexValue(t[2]) * 0x1000 + HexValue(t[3]) * 0x100 + HexValue(t[4]) * 0x10 + HexValue(t[5]), 6)
    else (t[1], 2)
  }

  /** Reads up to the closing quote: the units, and how long the quoted text was. */
  function ReadString(t: Text): (seq<int>, nat)
    decreases |t|
  {
    if t == [] || t[0] == QUOTE then ([], 0)
    else
      var (u, n) := ReadUnit(t);
      if n > |t| then ([u], n)
      else var (more, m) := ReadString(t[n..]); ([u] + more, n + m)
  }

  lemma HexDigitInverse(d: int)
    requires 0 <= d < 16
    ensures HexValue(HexDigit(d)) == d
  {
  }

  lemma FourDigits(u: Unit)
    ensures (u / 0x10 / 0x10 / 0x10 % 0x10) * 0x1000 + (u / 0x10 / 0x10 % 0x10) * 0x100 + (u / 0x10 % 0x10) * 0x10 + u % 0x10 == u
  {
    var a := u / 0x10;
    var b := a / 0x10;
    var c := b / 0x10;
    assert u == 0x10 * a + u % 0x10 && a == 0x10 * b + a % 0x10 && b == 0x10 * c + b % 0x10;
    assert 0 <= c < 0x10;
  }

  lemma ReadEscaped(u: Unit, x: Text)
    ensures var e := EscapeUnit(u); e[0] != QUOTE && ReadUnit(e + x) == (u, |e|)
  {
    hide HexDigit;
    hide HexValue;
    HexDigitInverse(u / 0x10 / 0x10 / 0x10 % 0x10);
    HexDigitInverse(u / 0x10 / 0x10 % 0x10);
    HexDigitInverse(u / 0x10 % 0x10);
    HexDigitInverse(u % 0x10);
    FourDigits(u);
  }

  lemma ReadOne(e: Text, u: Unit, rest: Text)
    requires e != [] && e[0] != QUOTE && ReadUnit(e + rest) == (u, |e|)
    ensures ReadString(e + rest) == ([u] + ReadString(rest).0, |e| + ReadString(rest).1)
  {
    hide ReadUnit;
    assert (e + rest)[|e|..] == rest;
  }

  lemma ReadPair(a: Unit, b: Unit, more: Text, t: seq<int>, x: Text)
    requires High(a) && Low(b) && ReadString(more + [QUOTE] + x) == (t, |more|)
    ensures ReadString([a, b] + more + [QUOTE] + x) == ([a, b] + t, 2 + |more|)
  {
    var rest := more + [QUOTE] + x;
    ReadOne([b], b, rest);
    ReadOne([a], a, [b] + rest);
    hide ReadString;
    assert [a] + ([b] + rest) == [a, b] + more + [QUOTE] + x;
    assert [a] + ([b] + t) == [a, b] + t;
  }

  lemma ReadSingle(u: Unit, more: Text, t: seq<int>, x: Text)
    requires ReadString(more + [QUOTE] + x) == (t, |more|)
    ensures ReadString(EscapeUnit(u) + more + [QUOTE] + x) == ([u] + t, |EscapeUnit(u)| + |more|)
  {
    var rest := more + [QUOTE] + x;
    ReadEscaped(u, rest);
    hide EscapeUnit;
    ReadOne(EscapeUnit(u), u, rest);
    hide ReadString;
    assert EscapeUnit(u) + rest == EscapeUnit(u) + more + [QUOTE] + x;
  }

  /** Reading an escaped string back gives its units and stops exactly at the closing quote. */
  lemma {:induction false} ReadEscape(s: Text, x: Text)
    ensures ReadString(Escape(s) + [QUOTE] + x) == (s, |Escape(s)|)
    decreases |s|
  {
    hide EscapeUnit;
    hide ReadUnit;
    if s == [] {
      assert ([] + [QUOTE] + x)[0] == QUOTE;
    } else if |s| >= 2 && High(s[0]) && Low(s[1]) {
      ReadEscape(s[2..], x);
      hide ReadString;
      ReadPair(s[0], s[1], Escape(s[2..]), s[2..], x);
      assert s == [s[0], s[1]] + s[2..];
    } else {
      ReadEscape(s[1..], x);
      hide ReadString;
      ReadSingle(s[0], Escape(s[1..]), s[1..], x);
      assert s == [s[0]] + s[1..];
    }
  }

  /** A quoted string at the front of a text determines the string and where it stops. */
  lemma QuotedIsUnique(s: Text, t: Text, x: Text, y: Text)
    requires Quoted(s) + x == Quoted(t) + y
    ensures s == t && x == y
  {
    var a, b := Escape(s) + [QUOTE] + x, Escape(t) + [QUOTE] + y;
    assert (Quoted(s) + x)[1..] == a && (Quoted(t) + y)[1..] == b;
    ReadEscape(s, x);
    ReadEscape(t, y);
    assert a[|Escape(s)| + 1..] == x && b[|Escape(s)| + 1..] == y;
  }

  // ---------------------------------------------------------------- values

  predicate NumberUnit(u: Unit) {
    0x30 <= u <= 0x39 || u == 0x2D || u == 0x2E || u == 0x2B || u == 0x65
  }

  /** The decimal text of a finite number, different for different numbers. */
  predicate NumberText(t: Text) {
    t != [] && (0x30 <= t[0] <= 0x39 || t[0] == 0x2D) && forall u <- t :: NumberUnit(u)
  }

  datatype Number = Finite(text: Text) | NegativeZero | NonFinite

  datatype Value =
    | Null
    | Bool(b: bool)
    | Num(n: Number)
    | Str(s: Text)
    | Arr(items: seq<Value>)
    | Obj(fields: seq<Field>)
    | Unsupported

  datatype Field = Field(key: Text, value: Value)

  predicate DistinctKeys(fields: seq<Field>) {
    forall i, j | 0 <= i < j < |fields| :: fields[i].key != fields[j].key
  }

  /** No undefined, function, symbol or bigint anywhere: values that serialize without throwing. */
  predicate Supported(v: Value) {
    match v
    case Arr(items) => forall i | 0 <= i < |items| :: Supported(items[i])
    case Obj(fields) => forall i | 0 <= i < |fields| :: Supported(fields[i].value)
    case _ => !v.Unsupported?
  }

  /** Supported values whose numbers are finite and not negative zero; an object owns each key once. */
  predicate Plain(v: Value) {
    match v
    case Num(n) => n.Finite? && NumberText(n.text)
    case Arr(items) => forall i | 0 <= i < |items| :: Plain(items[i])
    case Obj(fields) => DistinctKeys(fields) && forall i | 0 <= i < |fields| :: Plain(fields[i].value)
    case Unsupported => false
    case _ => true
  }

  /** Equal as JSON: the order of an object's fields does not matter. */
  ghost predicate Same(a: Value, b: Value)
    decreases a, 0
  {
    match a
    case Arr(items) => b.Arr? && |items| == |b.items| && forall i | 0 <= i < |items| :: Same(items[i], b.items[i])
    case Obj(fields) =>
      && b.Obj?
      && (forall f | f in fields :: Covered(f, b.fields))
      && (forall g | g in b.fields :: CoveredBy(fields, g))
    case _ => a == b
  }

  ghost predicate SameField(f: Field, g: Field)
    decreases f, 0
  {
    f.key == g.key && Same(f.value, g.value)
  }

  ghost predicate Covered(f: Field, gs: seq<Field>)
    decreases f, 1
  {
    exists g | g in gs :: SameField(f, g)
  }

  ghost predicate CoveredBy(fs: seq<Field>, g: Field)
    decreases fs
  {
    exists f | f in fs :: SameField(f, g)
  }

  // ---------------------------------------------------------------- sorting by key

  /** Code unit order. */
  predicate Less(a: Text, b: Text) {
    b != [] && (a == [] || a[0] < b[0] || (a[0] == b[0] && Less(a[1..], b[1..])))
  }

  lemma {:induction false} LessIsTotal(a: Text, b: Text)
    ensures Less(a, b) || Less(b, a) || a == b
    ensures !(Less(a, b) && Less(b, a))
    decreases |a|
  {
    if a != [] && b != [] {
      LessIsTotal(a[1..], b[1..]);
      if a[0] == b[0] && a[1..] == b[1..] { assert a == [a[0]] + a[1..] == b; }
    }
  }

  lemma {:induction false} LessIsTransitive(a: Text, b: Text, c: Text)
    requires Less(a, b) && Less(b, c)
    ensures Less(a, c)
    decreases |a|
  {
    if a != [] && a[0] == b[0] && b[0] == c[0] { LessIsTransitive(a[1..], b[1..], c[1..]); }
  }

  function Size(v: Value): (n: nat)
    ensures n > 0
  {
    match v
    case Arr(items) => 1 + SizeItems(items)
    case Obj(fields) => 1 + SizeFields(fields)
    case _ => 1
  }

  function SizeItems(items: seq<Value>): nat {
    if items == [] then 0 else Size(items[0]) + SizeItems(items[1..])
  }

  function SizeFields(fields: seq<Field>): nat {
    if fields == [] then 0 else Size(fields[0].value) + SizeFields(fields[1..])
  }

  function Insert(f: Field, s: seq<Field>): (r: seq<Field>)
    ensures multiset(r) == multiset(s) + multiset{f} && |r| == |s| + 1
    ensures SizeFields(r) == Size(f.value) + SizeFields(s)
  {
    if s == [] || Less(f.key, s[0].key) then [f] + s
    else
      assert s == [s[0]] + s[1..];
      [s[0]] + Insert(f, s[1..])
  }

  function Sort(fields: seq<Field>): (r: seq<Field>)
    ensures multiset(r) == multiset(fields) && |r| == |fields|
    ensures SizeFields(r) == SizeFields(fields)
  {
    if fields == [] then []
    else
      assert fields == [fields[0]] + fields[1..];
      Insert(fields[0], Sort(fields[1..]))
  }

  ghost predicate Ascending(s: seq<Field>) {
    forall i, j | 0 <= i < j < |s| :: Less(s[i].key, s[j].key)
  }

  lemma AscendingFrom(f: Field, s: seq<Field>)
    requires Ascending(s) && forall g <- s :: Less(f.key, g.key)
    ensures Ascending([f] + s)
  {
    var r := [f] + s;
    forall i, j | 0 <= i < j < |r| ensures Less(r[i].key, r[j].key) {
      assert r[j] == s[j - 1] && s[j - 1] in s;
      if i > 0 { assert r[i] == s[i - 1]; }
    }
  }

  lemma InsertedIn(f: Field, s: seq<Field>, g: Field)
    requires g in Insert(f, s)
    ensures g == f || g in s
  {
    assert g in multiset(Insert(f, s));
  }

  lemma {:induction false} InsertAscends(f: Field, s: seq<Field>)
    requires Ascending(s) && forall g <- s :: g.key != f.key
    ensures Ascending(Insert(f, s))
    decreases |s|
  {
    if s == [] {
    } else if Less(f.key, s[0].key) {
      forall g | g in s ensures Less(f.key, g.key) {
        if g != s[0] { LessIsTransitive(f.key, s[0].key, g.key); }
      }
      AscendingFrom(f, s);
    } else {
      LessIsTotal(f.key, s[0].key);
      InsertAscends(f, s[1..]);
      forall g | g in Insert(f, s[1..]) ensures Less(s[0].key, g.key) {
        InsertedIn(f, s[1..], g);
      }
      AscendingFrom(s[0], Insert(f, s[1..]));
    }
  }

  lemma {:induction false} SortAscends(fields: seq<Field>)
    requires DistinctKeys(fields)
    ensures Ascending(Sort(fields))
    decreases |fields|
  {
    if fields != [] {
      SortAscends(fields[1..]);
      var r := Sort(fields[1..]);
      forall g | g in r ensures g.key != fields[0].key {
        assert g in multiset(r);
        assert g in fields[1..];
      }
      InsertAscends(fields[0], r);
    }
  }

  lemma SortedIn(fields: seq<Field>, f: Field)
    ensures f in Sort(fields) <==> f in fields
  {
    assert f in Sort(fields) <==> f in multiset(Sort(fields));
    assert f in fields <==> f in multiset(fields);
  }

  lemma {:induction false} LessIsIrreflexive(a: Text)
    ensures !Less(a, a)
    decreases |a|
  {
    if a != [] { LessIsIrreflexive(a[1..]); }
  }

  // ---------------------------------------------------------------- canonical text

  /** The canonical text of a value that contains nothing unsupported. */
  function Canonical(v: Value): Text
    decreases Size(v), 0
  {
    match v
    case Null => NULL_TEXT
    case Bool(b) => if b then TRUE_TEXT else FALSE_TEXT
    case Num(Finite(text)) => text
    case Num(NegativeZero) => ZERO_TEXT
    case Num(NonFinite) => NULL_TEXT
    case Str(s) => Quoted(s)
    case Arr(items) => [OPEN_BRACKET] + ItemsText(items) + [CLOSE_BRACKET]
    case Obj(fields) => [OPEN_BRACE] + FieldsText(Sort(fields)) + [CLOSE_BRACE]
    case Unsupported => []
  }

  function ItemsText(items: seq<Value>): Text
    decreases SizeItems(items), 1
  {
    if items == [] then []
    else if |items| == 1 then assert items == [items[0]]; Canonical(items[0])
    else Canonical(items[0]) + [COMMA] + ItemsText(items[1..])
  }

  function FieldText(f: Field): Text
    decreases Size(f.value), 1
  {
    Quoted(f.key) + [COLON] + Canonical(f.value)
  }

  function FieldsText(fields: seq<Field>): Text
    decreases SizeFields(fields), 2
  {
    if fields == [] then []
    else if |fields| == 1 then FieldText(fields[0])
    else FieldText(fields[0]) + [COMMA] + FieldsText(fields[1..])
  }

  /** `canonicalJSON`: None where it throws. */
  function CanonicalJSON(v: Value): Option<Text> {
    if Supported(v) then Some(Canonical(v)) else None
  }

  // ---------------------------------------------------------------- different values have different texts

  predicate Delimited(x: Text) {
    x == [] || x[0] in {COMMA, CLOSE_BRACKET, CLOSE_BRACE}
  }

  lemma SamePrefix(p: Text, x: Text, y: Text)
    requires p + x == p + y
    ensures x == y
  {
    assert (p + x)[|p|..] == x && (p + y)[|p|..] == y;
  }

  /** How many units of a number a text starts with. */
  function NumberLength(t: Text): nat {
    if t == [] || !NumberUnit(t[0]) then 0 else 1 + NumberLength(t[1..])
  }

  lemma {:induction false} NumberEnds(s: Text, x: Text)
    requires (forall u <- s :: NumberUnit(u)) && Delimited(x)
    ensures NumberLength(s + x) == |s|
    decreases |s|
  {
    if s == [] {
      assert s + x == x;
    } else {
      assert (s + x)[1..] == s[1..] + x;
      NumberEnds(s[1..], x);
    }
  }

  lemma NumberIsUnique(s: Text, t: Text, x: Text, y: Text)
    requires NumberText(s) && NumberText(t) && Delimited(x) && Delimited(y) && s + x == t + y
    ensures s == t && x == y
  {
    NumberEnds(s, x);
    NumberEnds(t, y);
    assert s == (s + x)[..|s|] == (t + y)[..|t|] == t;
    SamePrefix(s, x, y);
  }

  /** The kind of value a text starts with, by its first unit. */
  function Lead(u: Unit): nat {
    if u == 0x6E then 0 else if u == 0x74 then 1 else if u == 0x66 then 2
    else if 0x30 <= u <= 0x39 || u == 0x2D then 3
    else if u == QUOTE then 4 else if u == OPEN_BRACKET then 5 else if u == OPEN_BRACE then 6 else 7
  }

  function LeadOf(v: Value): nat {
    match v
    case Null => 0
    case Bool(b) => if b then 1 else 2
    case Num(_) => 3
    case Str(_) => 4
    case Arr(_) => 5
    case Obj(_) => 6
    case Unsupported => 7
  }

  lemma Leads(v: Value)
    requires Plain(v)
    ensures Canonical(v) != [] && Lead(Canonical(v)[0]) == LeadOf(v) < 7
  {
    hide Escape;
    hide ItemsText;
    hide FieldsText;
  }

  lemma SameLead(a: Value, b: Value, x: Text, y: Text)
    requires Plain(a) && Plain(b) && Canonical(a) + x == Canonical(b) + y
    ensures LeadOf(a) == LeadOf(b)
  {
    hide Canonical;
    Leads(a);
    Leads(b);
    assert (Canonical(a) + x)[0] == Canonical(a)[0];
    assert (Canonical(b) + y)[0] == Canonical(b)[0];
  }

  /** A canonical text at the front of a text determines the value and where it stops. */
  lemma {:induction false} CanonicalIsUnique(a: Value, b: Value, x: Text, y: Text)
    requires Plain(a) && Plain(b) && Delimited(x) && Delimited(y) && Canonical(a) + x == Canonical(b) + y
    ensures Same(a, b) && x == y
    decreases Size(a), 0
  {
    SameLead(a, b, x, y);
    match a {
      case Null => SamePrefix(NULL_TEXT, x, y);
      case Bool(t) => SamePrefix(if t then TRUE_TEXT else FALSE_TEXT, x, y);
      case Num(n) => NumberIsUnique(n.text, b.n.text, x, y);
      case Str(s) => QuotedIsUnique(s, b.s, x, y);
      case Arr(items) =>
        ArrayText(a, x);
        ArrayText(b, y);
        SamePrefix([OPEN_BRACKET], ItemsText(items) + [CLOSE_BRACKET] + x, ItemsText(b.items) + [CLOSE_BRACKET] + y);
        ItemsAreUnique(items, b.items, x, y);
      case Obj(fields) =>
        ObjectText(a, x);
        ObjectText(b, y);
        SamePrefix([OPEN_BRACE], FieldsText(Sort(fields)) + [CLOSE_BRACE] + x, FieldsText(Sort(b.fields)) + [CLOSE_BRACE] + y);
        SortedPlain(fields);
        SortedPlain(b.fields);
        FieldsAreUnique(Sort(fields), Sort(b.fields), x, y);
        SameFromSorted(a, b);
    }
  }

  lemma ArrayText(a: Value, x: Text)
    requires a.Arr?
    ensures Canonical(a) + x == [OPEN_BRACKET] + (ItemsText(a.items) + [CLOSE_BRACKET] + x)
  {
  }

  lemma ObjectText(a: Value, x: Text)
    requires a.Obj?
    ensures Canonical(a) + x == [OPEN_BRACE] + (FieldsText(Sort(a.fields)) + [CLOSE_BRACE] + x)
  {
  }

  lemma SortedPlain(fields: seq<Field>)
    requires Plain(Obj(fields))
    ensures forall i | 0 <= i < |Sort(fields)| :: Plain(Sort(fields)[i].value)
  {
    forall i | 0 <= i < |Sort(fields)| ensures Plain(Sort(fields)[i].value) {
      SortedIn(fields, Sort(fields)[i]);
    }
  }

  lemma {:induction false} ItemsAreUnique(as_: seq<Value>, bs: seq<Value>, x: Text, y: Text)
    requires forall i | 0 <= i < |as_| :: Plain(as_[i])
    requires forall i | 0 <= i < |bs| :: Plain(bs[i])
    requires ItemsText(as_) + [CLOSE_BRACKET] + x == ItemsText(bs) + [CLOSE_BRACKET] + y
    ensures |as_| == |bs| && x == y && forall i | 0 <= i < |as_| :: Same(as_[i], bs[i])
    decreases SizeItems(as_), 1
  {
    hide Same;
    hide Plain;
    hide Canonical;
    ItemsStart(as_, x);
    ItemsStart(bs, y);
    if as_ == [] || bs == [] {
      SamePrefix([CLOSE_BRACKET], x, y);
    } else {
      CanonicalIsUnique(as_[0], bs[0], ItemsRest(as_, x), ItemsRest(bs, y));
      if |as_| > 1 {
        SamePrefix([COMMA], ItemsText(as_[1..]) + [CLOSE_BRACKET] + x, ItemsText(bs[1..]) + [CLOSE_BRACKET] + y);
        ItemsAreUnique(as_[1..], bs[1..], x, y);
        assert forall i | 1 <= i < |as_| :: as_[i] == as_[1..][i - 1] && bs[i] == bs[1..][i - 1];
      } else {
        SamePrefix([CLOSE_BRACKET], x, y);
      }
    }
  }

  /** What follows the first item. */
  function ItemsRest(items: seq<Value>, x: Text): Text
    requires items != []
  {
    if |items| == 1 then [CLOSE_BRACKET] + x else [COMMA] + (ItemsText(items[1..]) + [CLOSE_BRACKET] + x)
  }

  lemma ItemsStart(items: seq<Value>, x: Text)
    requires forall i | 0 <= i < |items| :: Plain(items[i])
    ensures var t := ItemsText(items) + [CLOSE_BRACKET] + x;
            if items == [] then t == [CLOSE_BRACKET] + x
            else t == Canonical(items[0]) + ItemsRest(items, x) && t[0] != CLOSE_BRACKET && Delimited(ItemsRest(items, x))
  {
    hide Canonical;
    hide Plain;
    hide Lead;
    if items != [] {
      Leads(items[0]);
      assert Lead(CLOSE_BRACKET) == 7 by { LeadOfBracket(); }
      ItemsSplit(items, x);
    }
  }

  lemma LeadOfBracket()
    ensures Lead(CLOSE_BRACKET) == 7
  {
  }

  lemma ItemsSplit(items: seq<Value>, x: Text)
    requires items != []
    ensures ItemsText(items) + [CLOSE_BRACKET] + x == Canonical(items[0]) + ItemsRest(items, x)
    ensures Delimited(ItemsRest(items, x))
  {
    hide Canonical;
    if |items| > 1 { Regroup(Canonical(items[0]), ItemsText(items[1..]), x); }
  }

  lemma Regroup(head: Text, more: Text, x: Text)
    ensures head + [COMMA] + more + [CLOSE_BRACKET] + x == head + ([COMMA] + (more + [CLOSE_BRACKET] + x))
  {
  }

  lemma {:induction false} FieldsAreUnique(fs: seq<Field>, gs: seq<Field>, x: Text, y: Text)
    requires forall i | 0 <= i < |fs| :: Plain(fs[i].value)
    requires forall i | 0 <= i < |gs| :: Plain(gs[i].value)
    requires FieldsText(fs) + [CLOSE_BRACE] + x == FieldsText(gs) + [CLOSE_BRACE] + y
    ensures |fs| == |gs| && x == y && forall i | 0 <= i < |fs| :: SameField(fs[i], gs[i])
    decreases SizeFields(fs), 2
  {
    hide Same;
    hide Plain;
    hide Canonical;
    hide Quoted;
    FieldsStart(fs, x);
    FieldsStart(gs, y);
    if fs == [] || gs == [] {
      SamePrefix([CLOSE_BRACE], x, y);
    } else {
      FieldIsUnique(fs[0], gs[0], FieldsRest(fs, x), FieldsRest(gs, y));
      if |fs| > 1 {
        SamePrefix([COMMA], FieldsText(fs[1..]) + [CLOSE_BRACE] + x, FieldsText(gs[1..]) + [CLOSE_BRACE] + y);
        FieldsAreUnique(fs[1..], gs[1..], x, y);
        assert forall i | 1 <= i < |fs| :: fs[i] == fs[1..][i - 1] && gs[i] == gs[1..][i - 1];
      } else {
        SamePrefix([CLOSE_BRACE], x, y);
      }
    }
  }

  lemma {:induction false} FieldIsUnique(f: Field, g: Field, x: Text, y: Text)
    requires Plain(f.value) && Plain(g.value) && Delimited(x) && Delimited(y)
    requires FieldText(f) + x == FieldText(g) + y
    ensures SameField(f, g) && x == y
    decreases Size(f.value), 1
  {
    hide Same;
    hide Plain;
    hide Canonical;
    hide Quoted;
    assert FieldText(f) + x == Quoted(f.key) + ([COLON] + (Canonical(f.value) + x));
    assert FieldText(g) + y == Quoted(g.key) + ([COLON] + (Canonical(g.value) + y));
    QuotedIsUnique(f.key, g.key, [COLON] + (Canonical(f.value) + x), [COLON] + (Canonical(g.value) + y));
    SamePrefix([COLON], Canonical(f.value) + x, Canonical(g.value) + y);
    CanonicalIsUnique(f.value, g.value, x, y);
  }

  function FieldsRest(fields: seq<Field>, x: Text): Text
    requires fields != []
  {
    if |fields| == 1 then [CLOSE_BRACE] + x else [COMMA] + (FieldsText(fields[1..]) + [CLOSE_BRACE] + x)
  }

  lemma FieldsStart(fields: seq<Field>, x: Text)
    ensures var t := FieldsText(fields) + [CLOSE_BRACE] + x;
            if fields == [] then t == [CLOSE_BRACE] + x
            else t == FieldText(fields[0]) + FieldsRest(fields, x) && t[0] == QUOTE && Delimited(FieldsRest(fields, x))
  {
    hide Canonical;
    hide Escape;
    if fields != [] {
      assert FieldText(fields[0])[0] == QUOTE;
      hide FieldText;
      if |fields| > 1 { RegroupFields(FieldText(fields[0]), FieldsText(fields[1..]), x); }
      else { assert FieldText(fields[0]) + [CLOSE_BRACE] + x == FieldText(fields[0]) + ([CLOSE_BRACE] + x); }
    }
  }

  lemma RegroupFields(head: Text, more: Text, x: Text)
    ensures head + [COMMA] + more + [CLOSE_BRACE] + x == head + ([COMMA] + (more + [CLOSE_BRACE] + x))
  {
  }

  /** Fields that agree once sorted agree as sets. */
  lemma SameFromSorted(a: Value, b: Value)
    requires a.Obj? && b.Obj? && |Sort(a.fields)| == |Sort(b.fields)|
    requires forall i | 0 <= i < |Sort(a.fields)| :: SameField(Sort(a.fields)[i], Sort(b.fields)[i])
    ensures Same(a, b)
  {
    hide SameField;
    hide Sort;
    var s, t := Sort(a.fields), Sort(b.fields);
    forall f | f in a.fields ensures Covered(f, b.fields) {
      SortedIn(a.fields, f);
      var k :| 0 <= k < |s| && s[k] == f;
      SortedIn(b.fields, t[k]);
    }
    forall g | g in b.fields ensures CoveredBy(a.fields, g) {
      SortedIn(b.fields, g);
      var k :| 0 <= k < |t| && t[k] == g;
      SortedIn(a.fields, s[k]);
    }
  }

  // ---------------------------------------------------------------- equal values have equal texts

  predicate HasKey(s: seq<Field>, key: Text) {
    exists f | f in s :: f.key == key
  }

  predicate SubKeys(s: seq<Field>, t: seq<Field>) {
    forall f | f in s :: HasKey(t, f.key)
  }

  lemma FirstIsLeast(s: seq<Field>, key: Text)
    requires Ascending(s) && HasKey(s, key)
    ensures s[0].key == key || Less(s[0].key, key)
  {
    var f :| f in s && f.key == key;
    var i :| 0 <= i < |s| && s[i] == f;
  }

  lemma {:induction false} SameKeysSameOrder(s: seq<Field>, t: seq<Field>)
    requires Ascending(s) && Ascending(t) && SubKeys(s, t) && SubKeys(t, s)
    ensures |s| == |t| && forall i | 0 <= i < |s| :: s[i].key == t[i].key
    decreases |s|
  {
    if s == [] || t == [] {
      assert s != [] ==> HasKey(t, s[0].key);
      assert t != [] ==> HasKey(s, t[0].key);
    } else {
      assert HasKey(t, s[0].key) && HasKey(s, t[0].key);
      FirstIsLeast(s, t[0].key);
      FirstIsLeast(t, s[0].key);
      LessIsTotal(s[0].key, t[0].key);
      TailsShareKeys(s, t);
      TailsShareKeys(t, s);
      SameKeysSameOrder(s[1..], t[1..]);
      assert forall i | 1 <= i < |s| :: s[i] == s[1..][i - 1] && t[i] == t[1..][i - 1];
    }
  }

  lemma TailsShareKeys(s: seq<Field>, t: seq<Field>)
    requires Ascending(s) && s != [] && t != [] && s[0].key == t[0].key && SubKeys(s, t)
    ensures SubKeys(s[1..], t[1..])
  {
    forall f | f in s[1..] ensures HasKey(t[1..], f.key) {
      assert HasKey(t, f.key);
      var g :| g in t && g.key == f.key;
      LessIsIrreflexive(s[0].key);
      assert Less(s[0].key, f.key);
    }
  }

  /** One sequence of fields holds the same fields as another. */
  predicate SameMembers(s: seq<Field>, t: seq<Field>) {
    (forall f | f in s :: f in t) && (forall f | f in t :: f in s)
  }

  lemma SortKeepsMembers(fields: seq<Field>)
    ensures SameMembers(Sort(fields), fields)
  {
    forall f ensures f in Sort(fields) <==> f in fields { SortedIn(fields, f); }
  }

  ghost predicate AllCovered(fs: seq<Field>, gs: seq<Field>) {
    (forall f | f in fs :: Covered(f, gs)) && (forall g | g in gs :: CoveredBy(fs, g))
  }

  /** Objects that are the same as JSON are field by field the same once sorted. */
  lemma SortedSame(a: Value, b: Value)
    requires a.Obj? && b.Obj? && Plain(a) && Plain(b) && Same(a, b)
    ensures |Sort(a.fields)| == |Sort(b.fields)|
    ensures forall i | 0 <= i < |Sort(a.fields)| :: SameField(Sort(a.fields)[i], Sort(b.fields)[i])
  {
    SortAscends(a.fields);
    SortAscends(b.fields);
    SortKeepsMembers(a.fields);
    SortKeepsMembers(b.fields);
    assert AllCovered(a.fields, b.fields);
    hide *;
    SharedKeys(Sort(a.fields), Sort(b.fields), a.fields, b.fields);
    SameKeysSameOrder(Sort(a.fields), Sort(b.fields));
    AlignedFields(Sort(a.fields), Sort(b.fields), a.fields, b.fields);
  }

  lemma KeyCovered(f: Field, gs: seq<Field>, t: seq<Field>)
    requires Covered(f, gs) && SameMembers(t, gs)
    ensures HasKey(t, f.key)
  {
    hide Same;
    var g :| g in gs && SameField(f, g);
    assert g in t;
  }

  lemma KeyCoveredBy(fs: seq<Field>, g: Field, s: seq<Field>)
    requires CoveredBy(fs, g) && SameMembers(s, fs)
    ensures HasKey(s, g.key)
  {
    hide Same;
    var f :| f in fs && SameField(f, g);
    assert f in s;
  }

  lemma SharedKeys(s: seq<Field>, t: seq<Field>, fs: seq<Field>, gs: seq<Field>)
    requires SameMembers(s, fs) && SameMembers(t, gs) && AllCovered(fs, gs)
    ensures SubKeys(s, t) && SubKeys(t, s)
  {
    hide Covered;
    hide CoveredBy;
    hide HasKey;
    forall f | f in s ensures HasKey(t, f.key) { KeyCovered(f, gs, t); }
    forall g | g in t ensures HasKey(s, g.key) { KeyCoveredBy(fs, g, s); }
  }

  lemma AlignedFields(s: seq<Field>, t: seq<Field>, fs: seq<Field>, gs: seq<Field>)
    requires Ascending(t) && |s| == |t| && forall i | 0 <= i < |s| :: s[i].key == t[i].key
    requires SameMembers(s, fs) && SameMembers(t, gs) && AllCovered(fs, gs)
    ensures forall i | 0 <= i < |s| :: SameField(s[i], t[i])
  {
    forall i | 0 <= i < |s| ensures SameField(s[i], t[i]) {
      assert s[i] in fs;
      assert Covered(s[i], gs);
      AlignedField(s[i], t, gs, i);
    }
  }

  lemma AlignedField(f: Field, t: seq<Field>, gs: seq<Field>, i: nat)
    requires Covered(f, gs) && SameMembers(t, gs) && Ascending(t) && i < |t| && f.key == t[i].key
    ensures SameField(f, t[i])
  {
    hide Same;
    hide Less;
    var g :| g in gs && SameField(f, g);
    assert g in t;
    var j :| 0 <= j < |t| && t[j] == g;
    LessIsIrreflexive(t[i].key);
  }

  lemma {:induction false} SameHaveSameText(a: Value, b: Value)
    requires Plain(a) && Plain(b) && Same(a, b)
    ensures Canonical(a) == Canonical(b)
    decreases Size(a), 0
  {
    hide SameField;
    hide Sort;
    hide FieldsText;
    hide ItemsText;
    if a.Arr? {
      ItemsHaveSameText(a.items, b.items);
    } else if a.Obj? {
      SortedSame(a, b);
      SortedPlain(a.fields);
      SortedPlain(b.fields);
      FieldsHaveSameText(Sort(a.fields), Sort(b.fields));
    }
  }

  lemma {:induction false} ItemsHaveSameText(as_: seq<Value>, bs: seq<Value>)
    requires |as_| == |bs| && forall i | 0 <= i < |as_| :: Plain(as_[i]) && Plain(bs[i]) && Same(as_[i], bs[i])
    ensures ItemsText(as_) == ItemsText(bs)
    decreases SizeItems(as_), 1
  {
    hide Plain;
    hide Same;
    hide Canonical;
    if as_ != [] {
      SameHaveSameText(as_[0], bs[0]);
      ItemsHaveSameText(as_[1..], bs[1..]);
    }
  }

  lemma {:induction false} FieldsHaveSameText(fs: seq<Field>, gs: seq<Field>)
    requires |fs| == |gs| && forall i | 0 <= i < |fs| :: Plain(fs[i].value) && Plain(gs[i].value) && SameField(fs[i], gs[i])
    ensures FieldsText(fs) == FieldsText(gs)
    decreases SizeFields(fs), 1
  {
    hide Plain;
    hide Same;
    hide Canonical;
    hide Quoted;
    if fs != [] {
      SameHaveSameText(fs[0].value, gs[0].value);
      FieldsHaveSameText(fs[1..], gs[1..]);
    }
  }

  lemma PlainIsSupported(v: Value)
    requires Plain(v)
    ensures Supported(v)
  {
  }

  /** Two values get the same canonical text exactly when they differ at most in the order of object keys. */
  lemma CanonicalTextIffSame(a: Value, b: Value)
    requires Plain(a) && Plain(b)
    ensures CanonicalJSON(a).Some? && CanonicalJSON(b).Some?
    ensures CanonicalJSON(a) == CanonicalJSON(b) <==> Same(a, b)
  {
    PlainIsSupported(a);
    PlainIsSupported(b);
    if Same(a, b) { SameHaveSameText(a, b); }
    if Canonical(a) == Canonical(b) { CanonicalIsUnique(a, b, [], []); }
  }

  /** Outside finite numbers and plain zeros, different values do collide. */
  lemma NumbersCollide()
    ensures CanonicalJSON(Num(NonFinite)) == CanonicalJSON(Null)
    ensures CanonicalJSON(Num(NegativeZero)) == CanonicalJSON(Num(Finite(ZERO_TEXT)))
  {
  }

  // ---------------------------------------------------------------- every value that has a text

  /** Any value JavaScript can hold that serializes: numbers of every kind, each key owned once. */
  predicate Serializable(v: Value) {
    match v
    case Num(Finite(text)) => NumberText(text)
    case Arr(items) => forall i | 0 <= i < |items| :: Serializable(items[i])
    case Obj(fields) => DistinctKeys(fields) && forall i | 0 <= i < |fields| :: Serializable(fields[i].value)
    case _ => !v.Unsupported?
  }

  /** What a value reads as once written: numbers that are not finite as null, negative zero as zero. */
  function AsRead(v: Value): Value
    decreases v
  {
    match v
    case Num(NegativeZero) => Num(Finite(ZERO_TEXT))
    case Num(NonFinite) => Null
    case Arr(items) => Arr(AllAsRead(items))
    case Obj(fields) => Obj(FieldsAsRead(fields))
    case _ => v
  }

  function AllAsRead(items: seq<Value>): (r: seq<Value>)
    ensures |r| == |items| && forall i | 0 <= i < |r| :: r[i] == AsRead(items[i])
    decreases items
  {
    if items == [] then [] else [AsRead(items[0])] + AllAsRead(items[1..])
  }

  function FieldAsRead(f: Field): Field
    decreases f
  {
    Field(f.key, AsRead(f.value))
  }

  function FieldsAsRead(fields: seq<Field>): (r: seq<Field>)
    ensures |r| == |fields| && forall i | 0 <= i < |r| :: r[i] == FieldAsRead(fields[i])
    decreases fields
  {
    if fields == [] then [] else [FieldAsRead(fields[0])] + FieldsAsRead(fields[1..])
  }

  lemma {:induction false} AsReadIsPlain(v: Value)
    requires Serializable(v)
    ensures Plain(AsRead(v))
    decreases v
  {
    match v
    case Arr(items) =>
      forall i | 0 <= i < |items| ensures Plain(AsRead(items[i])) { AsReadIsPlain(items[i]); }
    case Obj(fields) =>
      forall i | 0 <= i < |fields| ensures Plain(AsRead(fields[i].value)) { AsReadIsPlain(fields[i].value); }
    case _ =>
  }

  lemma {:induction false} InsertAsRead(f: Field, s: seq<Field>)
    ensures FieldsAsRead(Insert(f, s)) == Insert(FieldAsRead(f), FieldsAsRead(s))
    decreases |s|
  {
    hide AsRead;
    if s != [] && !Less(f.key, s[0].key) {
      InsertAsRead(f, s[1..]);
      assert FieldsAsRead(s)[1..] == FieldsAsRead(s[1..]);
    }
  }

  lemma {:induction false} SortAsRead(fields: seq<Field>)
    ensures FieldsAsRead(Sort(fields)) == Sort(FieldsAsRead(fields))
    decreases |fields|
  {
    hide AsRead;
    if fields != [] {
      SortAsRead(fields[1..]);
      InsertAsRead(fields[0], Sort(fields[1..]));
      assert FieldsAsRead(fields)[1..] == FieldsAsRead(fields[1..]);
    }
  }

  /** A value and what it reads as have one text. */
  lemma {:induction false} TextAsRead(v: Value)
    ensures Canonical(v) == Canonical(AsRead(v))
    decreases Size(v), 0
  {
    hide ItemsText;
    hide FieldsText;
    hide Sort;
    hide Quoted;
    hide FieldsAsRead;
    hide AllAsRead;
    match v
    case Arr(items) =>
      ItemsTextAsRead(items);
    case Obj(fields) =>
      SortAsRead(fields);
      FieldsTextAsRead(Sort(fields));
    case _ =>
  }

  lemma {:induction false} ItemsTextAsRead(items: seq<Value>)
    ensures ItemsText(items) == ItemsText(AllAsRead(items))
    decreases SizeItems(items), 1
  {
    hide AsRead;
    hide Canonical;
    if items != [] {
      TextAsRead(items[0]);
      ItemsTextAsRead(items[1..]);
      assert AllAsRead(items)[1..] == AllAsRead(items[1..]);
    }
  }

  lemma {:induction false} FieldsTextAsRead(fields: seq<Field>)
    ensures FieldsText(fields) == FieldsText(FieldsAsRead(fields))
    decreases SizeFields(fields), 1
  {
    hide AsRead;
    hide Canonical;
    hide Quoted;
    if fields != [] {
      TextAsRead(fields[0].value);
      FieldsTextAsRead(fields[1..]);
      assert FieldsAsRead(fields)[1..] == FieldsAsRead(fields[1..]);
    }
  }

  lemma SerializableIsSupported(v: Value)
    requires Serializable(v)
    ensures Supported(v)
  {
  }

  /** Over everything that serializes: equal texts exactly when the values read back the same, key order aside. */
  lemma CanonicalTextIffReadsSame(a: Value, b: Value)
    requires Serializable(a) && Serializable(b)
    ensures CanonicalJSON(a).Some? && CanonicalJSON(b).Some?
    ensures CanonicalJSON(a) == CanonicalJSON(b) <==> Same(AsRead(a), AsRead(b))
  {
    hide Canonical;
    hide Same;
    hide AsRead;
    SerializableIsSupported(a);
    SerializableIsSupported(b);
    AsReadIsPlain(a);
    AsReadIsPlain(b);
    TextAsRead(a);
    TextAsRead(b);
    CanonicalTextIffSame(AsRead(a), AsRead(b));
  }

  // ---------------------------------------------------------------- the handshake message

  function Message(clientNonce: Text, serverNonce: Text, hello: Value): Text {
    clientNonce + serverNonce + Canonical(hello)
  }

  /** With nonces of one length, the signed message determines both nonces and the hello. */
  lemma MessageDetermines(c: Text, s: Text, hello: Value, c': Text, s': Text, hello': Value)
    requires Plain(hello) && Plain(hello') && |c| == |c'| && |s| == |s'|
    ensures Message(c, s, hello) == Message(c', s', hello') <==> c == c' && s == s' && Same(hello, hello')
  {
    hide Canonical;
    hide Plain;
    hide Same;
    var m, m' := Message(c, s, hello), Message(c', s', hello');
    assert m[..|c|] == c && m[|c|..|c| + |s|] == s && m[|c| + |s|..] == Canonical(hello);
    assert m'[..|c|] == c' && m'[|c|..|c| + |s|] == s' && m'[|c| + |s|..] == Canonical(hello');
    CanonicalTextIffSame(hello, hello');
  }

  /** Of two inputs that sign the same message: they are the same exactly when their nonces have the same lengths. */
  lemma MessageDeterminesIff(c: Text, s: Text, hello: Value, c': Text, s': Text, hello': Value)
    requires Plain(hello) && Plain(hello') && Message(c, s, hello) == Message(c', s', hello')
    ensures c == c' && s == s' && Same(hello, hello') <==> |c| == |c'| && |s| == |s'|
  {
    hide Plain;
    hide Same;
    hide Message;
    if |c| == |c'| && |s| == |s'| { MessageDetermines(c, s, hello, c', s', hello'); }
  }

  /** With nonces of other lengths it does not: a unit can move from one nonce to the other. */
  lemma MessageIsAmbiguousOtherwise(c: Text, s: Text, hello: Value)
    requires c != []
    ensures Message(c, s, hello) == Message(c[..|c| - 1], [c[|c| - 1]] + s, hello)
  {
    assert c == c[..|c| - 1] + [c[|c| - 1]];
  }
}
