/**
 What JSON text says (sections 3 to 7 of RFC 8259), as a grammar relating texts
 to values, and that canonical JSON (packages/remote-core/src/auth.ts) is a text
 of the very value it was made from: in code unit order of the keys, and well
 formed as UTF-16.
 */
module JsonText {
  import opened Wrappers
  import opened CanonicalJson

  // ---------------------------------------------------------------- the grammar

  function HexOf(u: Unit): Option<nat> {
    if 0x30 <= u <= 0x39 then Some(u - 0x30)
    else if 0x61 <= u <= 0x66 then Some(u - 0x61 + 10)
    else if 0x41 <= u <= 0x46 then Some(u - 0x41 + 10)
    else None
  }

  /** Backslash and one letter: b, f, n, r, t, or a quote, backslash or slash for itself. */
  predicate ShortEscape(letter: Unit, u: Unit) {
    || (letter == 0x62 && u == 8) || (letter == 0x66 && u == 12) || (letter == 0x6E && u == 10)
    || (letter == 0x72 && u == 13) || (letter == 0x74 && u == 9)
    || (letter == u && u in {0x22, 0x5C, 0x2F})
  }

  predicate FourHex(t: Text, u: Unit)
    requires |t| == 4
  {
    && (forall i | 0 <= i < 4 :: HexOf(t[i]).Some?)
    && u == ((HexOf(t[0]).value * 16 + HexOf(t[1]).value) * 16 + HexOf(t[2]).value) * 16 + HexOf(t[3]).value
  }

  /** `t` writes the one unit `u` inside a string. */
  predicate WritesUnit(t: Text, u: Unit) {
    || (|t| == 1 && t[0] == u && u >= 0x20 && u != 0x22 && u != 0x5C)
    || (|t| == 2 && t[0] == 0x5C && ShortEscape(t[1], u))
    || (|t| == 6 && t[0] == 0x5C && t[1] == 0x75 && FourHex(t[2..], u))
  }

  ghost predicate WritesUnits(t: Text, s: Text)
    decreases |s|
  {
    if s == [] then t == []
    else exists k :: 0 < k <= |t| && WritesUnit(t[..k], s[0]) && WritesUnits(t[k..], s[1..])
  }

  ghost predicate WritesString(t: Text, s: Text) {
    |t| >= 2 && t[0] == 0x22 && t[|t| - 1] == 0x22 && WritesUnits(t[1..|t| - 1], s)
  }

  /** `t` writes the value `v`, an object's members in sorted order, and numbers by their decimal text. */
  ghost predicate Writes(t: Text, v: Value)
    decreases Size(v), 0
  {
    match v
    case Null => t == [0x6E, 0x75, 0x6C, 0x6C]
    case Bool(b) => t == if b then [0x74, 0x72, 0x75, 0x65] else [0x66, 0x61, 0x6C, 0x73, 0x65]
    case Num(Finite(text)) => t == text
    case Num(_) => false
    case Str(s) => WritesString(t, s)
    case Arr(items) => |t| >= 2 && t[0] == 0x5B && t[|t| - 1] == 0x5D && WritesItems(t[1..|t| - 1], items)
    case Obj(fields) => |t| >= 2 && t[0] == 0x7B && t[|t| - 1] == 0x7D && WritesMembers(t[1..|t| - 1], Sort(fields))
    case Unsupported => false
  }

  /** Elements separated by commas. */
  ghost predicate WritesItems(t: Text, items: seq<Value>)
    decreases SizeItems(items), 1
  {
    if items == [] then t == []
    else if |items| == 1 then assert items == [items[0]]; Writes(t, items[0])
    else exists k :: 0 <= k < |t| && t[k] == 0x2C && Writes(t[..k], items[0]) && WritesItems(t[k + 1..], items[1..])
  }

  /** A key, a colon and a value. */
  ghost predicate WritesMember(t: Text, f: Field)
    decreases Size(f.value), 1
  {
    exists k :: 0 <= k < |t| && t[k] == 0x3A && WritesString(t[..k], f.key) && Writes(t[k + 1..], f.value)
  }

  ghost predicate WritesMembers(t: Text, fields: seq<Field>)
    decreases SizeFields(fields), 2
  {
    if fields == [] then t == []
    else if |fields| == 1 then WritesMember(t, fields[0])
    else exists k :: 0 <= k < |t| && t[k] == 0x2C && WritesMember(t[..k], fields[0]) && WritesMembers(t[k + 1..], fields[1..])
  }

  // ---------------------------------------------------------------- strings

  lemma HexDigitIs(d: int)
    requires 0 <= d < 16
    ensures HexOf(HexDigit(d)) == Some(d)
  {
  }

  lemma EscapeWrites(u: Unit)
    ensures EscapeUnit(u) != [] && (u < 0x20 || u in {0x22, 0x5C} || 0xD800 <= u < 0xE000 || EscapeUnit(u) == [u])
    ensures WritesUnit(EscapeUnit(u), u)
  {
    var a, b, c, d := u / 0x10 / 0x10 / 0x10 % 0x10, u / 0x10 / 0x10 % 0x10, u / 0x10 % 0x10, u % 0x10;
    HexDigitIs(a);
    HexDigitIs(b);
    HexDigitIs(c);
    HexDigitIs(d);
    FourDigits(u);
    hide HexOf;
    hide HexDigit;
    assert [HexDigit(a), HexDigit(b), HexDigit(c), HexDigit(d)] == [BACKSLASH, LETTER_U, HexDigit(a), HexDigit(b), HexDigit(c), HexDigit(d)][2..];
    assert FourHex([HexDigit(a), HexDigit(b), HexDigit(c), HexDigit(d)], u);
    hide FourHex;
  }

  lemma WritesMore(e: Text, u: Unit, t: Text, s: Text)
    requires e != [] && WritesUnit(e, u) && WritesUnits(t, s)
    ensures WritesUnits(e + t, [u] + s)
  {
    assert (e + t)[..|e|] == e && (e + t)[|e|..] == t && ([u] + s)[1..] == s;
  }

  lemma {:induction false} EscapeWritesUnits(s: Text)
    ensures WritesUnits(Escape(s), s)
    decreases |s|
  {
    hide WritesUnit;
    if s == [] {
    } else if |s| >= 2 && High(s[0]) && Low(s[1]) {
      EscapeWritesUnits(s[2..]);
      RawWrites(s[0]);
      RawWrites(s[1]);
      WritesMore([s[1]], s[1], Escape(s[2..]), s[2..]);
      WritesMore([s[0]], s[0], [s[1]] + Escape(s[2..]), [s[1]] + s[2..]);
      assert [s[0]] + ([s[1]] + Escape(s[2..])) == [s[0], s[1]] + Escape(s[2..]);
      assert s == [s[0]] + ([s[1]] + s[2..]);
    } else {
      EscapeWritesUnits(s[1..]);
      EscapeWrites(s[0]);
      WritesMore(EscapeUnit(s[0]), s[0], Escape(s[1..]), s[1..]);
      assert s == [s[0]] + s[1..];
    }
  }

  lemma RawWrites(u: Unit)
    requires u >= 0x60
    ensures WritesUnit([u], u)
  {
  }

  /** A quoted string is JSON for the string. */
  lemma QuotedWrites(s: Text)
    ensures WritesString(Quoted(s), s)
  {
    EscapeWritesUnits(s);
    assert Quoted(s)[1..|Quoted(s)| - 1] == Escape(s);
  }

  // ---------------------------------------------------------------- values

  /** Canonical JSON is a JSON text of the value, with no white space and the members in the order of their keys. */
  lemma {:induction false} CanonicalWrites(v: Value)
    requires Plain(v)
    ensures Writes(Canonical(v), v)
    decreases Size(v), 0
  {
    match v
    case Str(s) => QuotedWrites(s);
    case Arr(items) =>
      ItemsWrite(items);
      assert Canonical(v)[1..|Canonical(v)| - 1] == ItemsText(items);
    case Obj(fields) =>
      SortedPlain(fields);
      MembersWrite(Sort(fields));
      assert Canonical(v)[1..|Canonical(v)| - 1] == FieldsText(Sort(fields));
    case _ =>
  }

  lemma {:induction false} ItemsWrite(items: seq<Value>)
    requires forall i | 0 <= i < |items| :: Plain(items[i])
    ensures WritesItems(ItemsText(items), items)
    decreases SizeItems(items), 1
  {
    if |items| == 1 {
      assert items == [items[0]];
      CanonicalWrites(items[0]);
    } else if |items| > 1 {
      CanonicalWrites(items[0]);
      ItemsWrite(items[1..]);
      var a, b := Canonical(items[0]), ItemsText(items[1..]);
      var t := ItemsText(items);
      assert t == a + [COMMA] + b;
      CutAt(a, COMMA, b);
    }
  }

  lemma CutAt(a: Text, u: Unit, b: Text)
    ensures var t := a + [u] + b; t[|a|] == u && t[..|a|] == a && t[|a| + 1..] == b
  {
  }

  lemma {:induction false} MemberWrites(f: Field)
    requires Plain(f.value)
    ensures WritesMember(FieldText(f), f)
    decreases Size(f.value), 1
  {
    QuotedWrites(f.key);
    CanonicalWrites(f.value);
    hide Quoted;
    CutAt(Quoted(f.key), COLON, Canonical(f.value));
  }

  lemma {:induction false} MembersWrite(fields: seq<Field>)
    requires forall i | 0 <= i < |fields| :: Plain(fields[i].value)
    ensures WritesMembers(FieldsText(fields), fields)
    decreases SizeFields(fields), 2
  {
    if |fields| == 1 {
      MemberWrites(fields[0]);
    } else if |fields| > 1 {
      MemberWrites(fields[0]);
      MembersWrite(fields[1..]);
      CutAt(FieldText(fields[0]), COMMA, FieldsText(fields[1..]));
    }
  }

  /** Over everything that serializes, the canonical text says what the value reads back as. */
  lemma CanonicalIsJson(v: Value)
    requires Serializable(v)
    ensures CanonicalJSON(v).Some? && Writes(CanonicalJSON(v).value, AsRead(v))
  {
    SerializableIsSupported(v);
    AsReadIsPlain(v);
    TextAsRead(v);
    CanonicalWrites(AsRead(v));
  }

  // ---------------------------------------------------------------- order and form

  /** Keys are compared unit by unit: at the first difference the smaller unit decides, and a proper prefix comes first. */
  lemma {:induction false} LessIff(a: Text, b: Text)
    ensures Less(a, b) <==>
              || (|a| < |b| && b[..|a|] == a)
              || exists k :: 0 <= k < |a| && k < |b| && a[..k] == b[..k] && a[k] < b[k]
    decreases |a|
  {
    if a != [] && b != [] {
      LessIff(a[1..], b[1..]);
      if a[0] == b[0] { FirstDiffers(a, b); }
      else if a[0] < b[0] { assert a[..0] == b[..0]; }
      else {
        forall k | 0 < k <= |a| && k <= |b| ensures a[..k] != b[..k] { assert a[..k][0] == a[0] && b[..k][0] == b[0]; }
      }
    }
  }

  lemma FirstDiffers(a: Text, b: Text)
    requires a != [] && b != [] && a[0] == b[0]
    ensures |a| < |b| && b[..|a|] == a <==> |a[1..]| < |b[1..]| && b[1..][..|a| - 1] == a[1..]
    ensures (exists k :: 0 <= k < |a| && k < |b| && a[..k] == b[..k] && a[k] < b[k]) <==>
              exists k :: 0 <= k < |a[1..]| && k < |b[1..]| && a[1..][..k] == b[1..][..k] && a[1..][k] < b[1..][k]
  {
    assert a == [a[0]] + a[1..] && b == [b[0]] + b[1..];
    forall k | 0 < k <= |a| && k <= |b| ensures a[..k] == b[..k] <==> a[1..][..k - 1] == b[1..][..k - 1] {
      assert a[..k] == [a[0]] + a[1..][..k - 1] && b[..k] == [b[0]] + b[1..][..k - 1];
      if a[..k] == b[..k] { assert a[..k][1..] == a[1..][..k - 1] && b[..k][1..] == b[1..][..k - 1]; }
    }
    if k :| 0 <= k < |a| && k < |b| && a[..k] == b[..k] && a[k] < b[k] {
      assert a[1..][..k - 1] == b[1..][..k - 1] && a[1..][k - 1] < b[1..][k - 1];
    }
    if k :| 0 <= k < |a[1..]| && k < |b[1..]| && a[1..][..k] == b[1..][..k] && a[1..][k] < b[1..][k] {
      assert a[..k + 1] == b[..k + 1] && a[k + 1] < b[k + 1];
    }
  }

  /** A high surrogate is followed by a low one, and a low one preceded by a high one. */
  predicate Paired(t: Text, i: nat)
    requires i < |t|
  {
    && (0xD800 <= t[i] <= 0xDBFF ==> i + 1 < |t| && 0xDC00 <= t[i + 1] <= 0xDFFF)
    && (0xDC00 <= t[i] <= 0xDFFF ==> i > 0 && 0xD800 <= t[i - 1] <= 0xDBFF)
  }

  ghost predicate WellFormedUtf16(t: Text) {
    forall i | 0 <= i < |t| :: Paired(t, i)
  }

  lemma WellFormedJoin(a: Text, b: Text)
    requires WellFormedUtf16(a) && WellFormedUtf16(b)
    ensures WellFormedUtf16(a + b)
  {
    forall i | 0 <= i < |a + b| ensures Paired(a + b, i) {
      if i < |a| { assert Paired(a, i); } else { assert Paired(b, i - |a|); }
    }
  }

  lemma EscapeUnitForm(u: Unit)
    ensures WellFormedUtf16(EscapeUnit(u))
    ensures |EscapeUnit(u)| == (if u in {0x22, 0x5C, 8, 9, 10, 12, 13} then 2 else if u < 0x20 || 0xD800 <= u <= 0xDFFF then 6 else 1)
    ensures forall i | 2 <= i < |EscapeUnit(u)| :: 0x30 <= EscapeUnit(u)[i] <= 0x39 || 0x61 <= EscapeUnit(u)[i] <= 0x66
  {
  }

  /** An escaped string is well formed whatever the string was: surrogates without a partner are escaped, pairs are kept. */
  lemma {:induction false} EscapeIsWellFormed(s: Text)
    ensures WellFormedUtf16(Escape(s))
    decreases |s|
  {
    if s != [] {
      var n := if |s| >= 2 && High(s[0]) && Low(s[1]) then 2 else 1;
      EscapeIsWellFormed(s[n..]);
      EscapeUnitForm(s[0]);
      hide EscapeUnit;
      WellFormedJoin(if n == 2 then [s[0], s[1]] else EscapeUnit(s[0]), Escape(s[n..]));
    }
  }

  /** A well formed string with nothing to escape is written as it is. */
  lemma {:induction false} PlainStringStays(s: Text)
    requires WellFormedUtf16(s) && forall u <- s :: u >= 0x20 && u != 0x22 && u != 0x5C
    ensures Escape(s) == s
    decreases |s|
  {
    if s != [] {
      var n := if |s| >= 2 && High(s[0]) && Low(s[1]) then 2 else 1;
      RestWellFormed(s, n);
      assert forall u <- s[n..] :: u in s;
      PlainStringStays(s[n..]);
      assert Paired(s, 0) && s[0] in s;
      EscapeWrites(s[0]);
      hide EscapeUnit;
      assert s == s[..n] + s[n..];
      assert s[..n] == if n == 2 then [s[0], s[1]] else [s[0]];
    }
  }

  lemma RestWellFormed(s: Text, n: nat)
    requires WellFormedUtf16(s) && s != [] && n == if |s| >= 2 && High(s[0]) && Low(s[1]) then 2 else 1
    ensures n <= |s| && WellFormedUtf16(s[n..])
  {
    forall i | 0 <= i < |s[n..]| ensures Paired(s[n..], i) {
      assert Paired(s, i + n);
    }
  }

  // ---------------------------------------------------------------- what does not serialize

  /** The value at child positions `p` below `v`. */
  function At(v: Value, p: seq<nat>): Option<Value>
    decreases |p|
  {
    if p == [] then Some(v)
    else if p[0] < Kids(v) then At(Kid(v, p[0]), p[1..])
    else None
  }

  /** Something unsupported can be reached from `v`. */
  ghost predicate HoldsUnsupported(v: Value) {
    exists p :: At(v, p) == Some(Unsupported)
  }

  /** Canonical JSON throws exactly for values that hold something unsupported anywhere. */
  lemma ThrowsIffUnsupported(v: Value)
    ensures CanonicalJSON(v).None? <==> HoldsUnsupported(v)
  {
    UnsupportedIff(v);
  }

  lemma {:induction false} UnsupportedIff(v: Value)
    ensures !Supported(v) <==> HoldsUnsupported(v)
    decreases v
  {
    SupportedIff(v);
    if !Supported(v) {
      if v == Unsupported {
        assert At(v, []) == Some(Unsupported);
      } else {
        var i: nat :| i < Kids(v) && !Supported(Kid(v, i));
        UnsupportedIff(Kid(v, i));
        var p :| At(Kid(v, i), p) == Some(Unsupported);
        assert ([i] + p)[1..] == p;
        assert At(v, [i] + p) == Some(Unsupported);
      }
    }
    if HoldsUnsupported(v) && v != Unsupported {
      var p :| At(v, p) == Some(Unsupported);
      assert p[0] < Kids(v) && At(Kid(v, p[0]), p[1..]) == Some(Unsupported);
      UnsupportedIff(Kid(v, p[0]));
      assert !Supported(Kid(v, p[0]));
    }
  }

  lemma SupportedIff(v: Value)
    ensures Supported(v) <==> v != Unsupported && forall i: nat | i < Kids(v) :: Supported(Kid(v, i))
  {
    if v.Arr? { assert forall i: nat | i < Kids(v) :: Kid(v, i) == v.items[i]; }
    if v.Obj? { assert forall i: nat | i < Kids(v) :: Kid(v, i) == v.fields[i].value; }
  }

  function Kids(v: Value): nat {
    if v.Arr? then |v.items| else if v.Obj? then |v.fields| else 0
  }

  function Kid(v: Value, i: nat): (kid: Value)
    requires i < Kids(v)
    ensures kid < v
  {
    if v.Arr? then v.items[i] else v.fields[i].value
  }
}
