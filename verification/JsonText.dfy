/**
 * JSON text: the values that Go's encoder is given, the text it writes for them, a reader for that
 * text (RFC 8259 without white space, fractions, exponents and surrogate escapes), and how far a
 * predicted size may stay behind.
 */
module JsonText {
  import opened ByteStrings
  import opened JsonStrings
  import opened JsonScalars

  predicate PlainName(name: string) {
    forall i :: 0 <= i < |name| ==> 'a' <= name[i] <= 'z' || name[i] == '_'
  }

  /** A field name as the struct tags spell it. */
  type Name = name: string | PlainName(name)

  /** What a field holds; Quoted is a number with the `string` tag option, Bin a byte slice. */
  datatype Json =
    | Null
    | Str(text: Bytes)
    | Bin(bytes: Option<Bytes>)
    | Num(n: nat)
    | Quoted(n: nat)
    | Obj(fields: Fields)
    | Arr(items: Items)

  datatype Fields = NoFields | Field(name: Name, value: Json, more: Fields)

  datatype Items = NoItems | Item(value: Json, more: Items)

  const COLON: byte := 0x3A
  const OPEN_BRACE: byte := 0x7B
  const CLOSE_BRACE: byte := 0x7D
  const OPEN_BRACKET: byte := 0x5B
  const CLOSE_BRACKET: byte := 0x5D

  function InQuotes(b: Bytes): (t: Bytes) { [QUOTE] + b + [QUOTE] }

  function Print(j: Json): (t: Bytes) {
    match j
    case Null => Ascii("null")
    case Str(text) => PrintString(text)
    case Bin(bytes) => PrintBinary(bytes)
    case Num(n) => Digits(n)
    case Quoted(n) => InQuotes(Digits(n))
    case Obj(fields) => [OPEN_BRACE] + PrintFields(fields) + [CLOSE_BRACE]
    case Arr(items) => [OPEN_BRACKET] + PrintItems(items) + [CLOSE_BRACKET]
  }

  function PrintFields(f: Fields): (t: Bytes) {
    match f
    case NoFields => []
    case Field(name, value, NoFields) => InQuotes(Ascii(name)) + [COLON] + Print(value)
    case Field(name, value, more) => InQuotes(Ascii(name)) + [COLON] + Print(value) + [COMMA] + PrintFields(more)
  }

  function PrintItems(i: Items): (t: Bytes) {
    match i
    case NoItems => []
    case Item(value, NoItems) => Print(value)
    case Item(value, more) => Print(value) + [COMMA] + PrintItems(more)
  }

  /** The punctuation, as text. */
  lemma Punctuation()
    ensures Ascii("\"") == [QUOTE] && Ascii(":") == [COLON] && Ascii(",") == [COMMA]
    ensures Ascii("{") == [OPEN_BRACE] && Ascii("}") == [CLOSE_BRACE]
    ensures Ascii("[") == [OPEN_BRACKET] && Ascii("]") == [CLOSE_BRACKET]
  {
  }

  lemma ObjectText(f: Fields)
    ensures Print(Obj(f)) == Ascii("{") + PrintFields(f) + Ascii("}")
    ensures f.NoFields? ==> PrintFields(f) == []
    ensures f.Field? ==>
              var head := Ascii("\"") + Ascii(f.name) + Ascii("\"") + Ascii(":") + Print(f.value);
              PrintFields(f) == if f.more.NoFields? then head else head + Ascii(",") + PrintFields(f.more)
  {
    Punctuation();
  }

  lemma ArrayText(i: Items)
    ensures Print(Arr(i)) == Ascii("[") + PrintItems(i) + Ascii("]")
    ensures i.NoItems? ==> PrintItems(i) == []
    ensures i.Item? ==>
              PrintItems(i) == if i.more.NoItems? then Print(i.value) else Print(i.value) + Ascii(",") + PrintItems(i.more)
  {
    Punctuation();
  }

  lemma ScalarText(text: Bytes, bytes: Option<Bytes>, n: nat)
    ensures Print(Null) == Ascii("null") && Print(Str(text)) == Ascii("\"") + Escaped(text) + Ascii("\"")
    ensures Print(Bin(bytes)) == if bytes.None? then Ascii("null") else Ascii("\"") + Base64(bytes.value) + Ascii("\"")
    ensures Print(Num(n)) == Digits(n) && Print(Quoted(n)) == Ascii("\"") + Digits(n) + Ascii("\"")
  {
    Punctuation();
  }

  // Reading the text back.

  /** A JSON value as any reader sees it. */
  datatype Value =
    | VNull
    | VString(text: Bytes)
    | VNumber(n: nat)
    | VObject(members: seq<Member>)
    | VArray(elements: seq<Value>)

  datatype Member = Member(name: Bytes, value: Value)

  function DigitRun(s: Bytes): (k: nat)
    ensures k <= |s| && forall i :: 0 <= i < k ==> IsDigit(s[i])
    ensures k < |s| ==> !IsDigit(s[k])
  {
    if s == [] || !IsDigit(s[0]) then 0 else 1 + DigitRun(s[1..])
  }

  function ParseValue(s: Bytes): (r: Option<(Value, Bytes)>)
    ensures r.Some? ==> |r.value.1| < |s|
    decreases |s|, 0
  {
    if s == [] then None
    else if s[0] == QUOTE then
      match ReadString(s[1..])
      case None => None
      case Some((text, rest)) => Some((VString(text), rest))
    else if IsDigit(s[0]) then
      var k := DigitRun(s);
      Some((VNumber(DigitsValue(s[..k])), s[k..]))
    else if s[0] == OPEN_BRACE then
      if |s| > 1 && s[1] == CLOSE_BRACE then Some((VObject([]), s[2..]))
      else
        match ParseMembers(s[1..])
        case None => None
        case Some((members, rest)) => Some((VObject(members), rest))
    else if s[0] == OPEN_BRACKET then
      if |s| > 1 && s[1] == CLOSE_BRACKET then Some((VArray([]), s[2..]))
      else
        match ParseElements(s[1..])
        case None => None
        case Some((elements, rest)) => Some((VArray(elements), rest))
    else if |s| >= 4 && s[..4] == Ascii("null") then Some((VNull, s[4..]))
    else None
  }

  /** A string and the colon after it. */
  function ParseName(s: Bytes): (r: Option<(Bytes, Bytes)>)
    ensures r.Some? ==> |r.value.1| < |s|
  {
    if s == [] || s[0] != QUOTE then None
    else
      match ReadString(s[1..])
      case None => None
      case Some((name, rest)) => if rest == [] || rest[0] != COLON then None else Some((name, rest[1..]))
  }

  function ParseMembers(s: Bytes): (r: Option<(seq<Member>, Bytes)>)
    ensures r.Some? ==> |r.value.1| < |s|
    decreases |s|, 1
  {
    match ParseName(s)
    case None => None
    case Some((name, afterName)) =>
      match ParseValue(afterName)
      case None => None
      case Some((value, rest)) =>
        if rest == [] then None
        else if rest[0] == CLOSE_BRACE then Some(([Member(name, value)], rest[1..]))
        else if rest[0] != COMMA then None
        else
          match ParseMembers(rest[1..])
          case None => None
          case Some((more, after)) => Some(([Member(name, value)] + more, after))
  }

  function ParseElements(s: Bytes): (r: Option<(seq<Value>, Bytes)>)
    ensures r.Some? ==> |r.value.1| < |s|
    decreases |s|, 1
  {
    match ParseValue(s)
    case None => None
    case Some((value, rest)) =>
      if rest == [] then None
      else if rest[0] == CLOSE_BRACKET then Some(([value], rest[1..]))
      else if rest[0] != COMMA then None
      else
        match ParseElements(rest[1..])
        case None => None
        case Some((more, after)) => Some(([value] + more, after))
  }

  /** What the printed text says. */
  function Meaning(j: Json): (v: Value) {
    match j
    case Null => VNull
    case Str(text) => VString(Repaired(text))
    case Bin(bytes) => if bytes.None? then VNull else VString(Base64(bytes.value))
    case Num(n) => VNumber(n)
    case Quoted(n) => VString(Digits(n))
    case Obj(fields) => VObject(MembersOf(fields))
    case Arr(items) => VArray(ElementsOf(items))
  }

  function MembersOf(f: Fields): (m: seq<Member>) {
    match f
    case NoFields => []
    case Field(name, value, more) => [Member(Ascii(name), Meaning(value))] + MembersOf(more)
  }

  function ElementsOf(i: Items): (e: seq<Value>) {
    match i
    case NoItems => []
    case Item(value, more) => [Meaning(value)] + ElementsOf(more)
  }

  lemma ReadQuoted(raw: Bytes, rest: Bytes)
    requires AllPlain(raw)
    ensures ReadString(raw + ([QUOTE] + rest)) == Some((raw, rest))
  {
    assert ([QUOTE] + rest)[1..] == rest;
    assert ReadString([QUOTE] + rest) == Some(([], rest));
    ReadPlain(raw, [QUOTE] + rest);
    assert raw + [] == raw;
  }

  lemma QuotedText(raw: Bytes, rest: Bytes)
    ensures InQuotes(raw) + rest == [QUOTE] + (raw + ([QUOTE] + rest))
  {
  }

  lemma {:induction false} Base64Plain(s: Bytes)
    ensures AllPlain(Base64(s))
  {
    if |s| > 2 { Base64Plain(s[3..]); }
  }

  lemma NamePlain(name: Name)
    ensures AllPlain(Ascii(name))
  {
    forall i | 0 <= i < |name| ensures Plain(Ascii(name)[i]) {
      assert 'a' <= name[i] <= 'z' || name[i] == '_';
    }
  }

  /** Text that does not carry a number on. */
  predicate NoDigit(rest: Bytes) { rest == [] || !IsDigit(rest[0]) }

  lemma {:induction false} DigitRunLength(d: Bytes, rest: Bytes)
    requires NoDigit(rest) && forall i :: 0 <= i < |d| ==> IsDigit(d[i])
    ensures DigitRun(d + rest) == |d|
  {
    if d == [] {
      assert d + rest == rest;
    } else {
      DigitRunLength(d[1..], rest);
      assert (d + rest)[1..] == d[1..] + rest && (d + rest)[0] == d[0];
    }
  }

  lemma ParseNumber(n: nat, rest: Bytes)
    requires NoDigit(rest)
    ensures ParseValue(Digits(n) + rest) == Some((VNumber(n), rest))
  {
    var d := Digits(n);
    DigitRunLength(d, rest);
    DigitsReadBack(n);
    assert (d + rest)[0] == d[0] && (d + rest)[..|d|] == d && (d + rest)[|d|..] == rest;
  }

  lemma ParseText(s: Bytes, text: Bytes, rest: Bytes)
    requires ReadString(s) == Some((text, rest))
    ensures ParseValue([QUOTE] + s) == Some((VString(text), rest))
  {
    assert ([QUOTE] + s)[1..] == s;
  }

  lemma ParseQuoted(raw: Bytes, rest: Bytes)
    requires AllPlain(raw)
    ensures ParseValue(InQuotes(raw) + rest) == Some((VString(raw), rest))
  {
    ReadQuoted(raw, rest);
    QuotedText(raw, rest);
    ParseText(raw + ([QUOTE] + rest), raw, rest);
  }

  lemma ParseNull(rest: Bytes)
    ensures ParseValue(Ascii("null") + rest) == Some((VNull, rest))
  {
    var n := Ascii("null");
    assert n[0] == 0x6E;
    assert (n + rest)[0] == n[0] && (n + rest)[..4] == n && (n + rest)[4..] == rest;
  }

  lemma ReadName(name: Name, t: Bytes)
    ensures ParseName(InQuotes(Ascii(name)) + ([COLON] + t)) == Some((Ascii(name), t))
  {
    var raw := Ascii(name);
    NamePlain(name);
    ReadQuoted(raw, [COLON] + t);
    QuotedText(raw, [COLON] + t);
    var s := raw + ([QUOTE] + ([COLON] + t));
    assert ([QUOTE] + s)[1..] == s && ([COLON] + t)[1..] == t;
  }

  lemma LastMember(s: Bytes, name: Bytes, t: Bytes, value: Value, rest: Bytes)
    requires ParseName(s) == Some((name, t)) && ParseValue(t) == Some((value, [CLOSE_BRACE] + rest))
    ensures ParseMembers(s) == Some(([Member(name, value)], rest))
  {
    assert ([CLOSE_BRACE] + rest)[1..] == rest;
  }

  lemma NextMember(s: Bytes, name: Bytes, t: Bytes, value: Value, u: Bytes, more: seq<Member>, rest: Bytes)
    requires ParseName(s) == Some((name, t)) && ParseValue(t) == Some((value, [COMMA] + u))
    requires ParseMembers(u) == Some((more, rest))
    ensures ParseMembers(s) == Some(([Member(name, value)] + more, rest))
  {
    assert ([COMMA] + u)[1..] == u;
  }

  lemma LastElement(s: Bytes, value: Value, rest: Bytes)
    requires ParseValue(s) == Some((value, [CLOSE_BRACKET] + rest))
    ensures ParseElements(s) == Some(([value], rest))
  {
    assert ([CLOSE_BRACKET] + rest)[1..] == rest;
  }

  lemma NextElement(s: Bytes, value: Value, u: Bytes, more: seq<Value>, rest: Bytes)
    requires ParseValue(s) == Some((value, [COMMA] + u)) && ParseElements(u) == Some((more, rest))
    ensures ParseElements(s) == Some(([value] + more, rest))
  {
    assert ([COMMA] + u)[1..] == u;
  }

  lemma FirstByte(j: Json)
    ensures Print(j) != [] && Print(j)[0] != CLOSE_BRACKET
  {
    if j.Null? || j.Bin? { assert Ascii("null")[0] == 0x6E; }
    if j.Num? { assert IsDigit(Digits(j.n)[0]); }
  }

  lemma PrintedText(text: Bytes, rest: Bytes)
    ensures ParseValue(PrintString(text) + rest) == Some((VString(Repaired(text)), rest))
  {
    PrintedReadsBack(text, rest);
    var s := Escaped(text) + [QUOTE] + rest;
    Wrap(QUOTE, Escaped(text), QUOTE, rest);
    ParseText(s, Repaired(text), rest);
  }

  lemma PrintedBytes(bytes: Option<Bytes>, rest: Bytes)
    ensures ParseValue(PrintBinary(bytes) + rest) == Some((Meaning(Bin(bytes)), rest))
  {
    if bytes.None? {
      ParseNull(rest);
    } else {
      Base64Plain(bytes.value);
      ParseQuoted(Base64(bytes.value), rest);
      assert PrintBinary(bytes) == InQuotes(Base64(bytes.value));
    }
  }

  lemma ParseObject(body: Bytes, members: seq<Member>, rest: Bytes)
    requires body != [] && body[0] != CLOSE_BRACE && ParseMembers(body) == Some((members, rest))
    ensures ParseValue([OPEN_BRACE] + body) == Some((VObject(members), rest))
  {
    assert ([OPEN_BRACE] + body)[1..] == body;
  }

  lemma ParseArray(body: Bytes, elements: seq<Value>, rest: Bytes)
    requires body != [] && body[0] != CLOSE_BRACKET && ParseElements(body) == Some((elements, rest))
    ensures ParseValue([OPEN_BRACKET] + body) == Some((VArray(elements), rest))
  {
    assert ([OPEN_BRACKET] + body)[1..] == body;
  }

  lemma Wrap(open: byte, body: Bytes, close: byte, rest: Bytes)
    ensures [open] + body + [close] + rest == [open] + (body + ([close] + rest))
    ensures [open] + body + [close] + rest == [open] + (body + [close] + rest)
  {
  }

  lemma ParseEmpty(rest: Bytes)
    ensures ParseValue(Print(Obj(NoFields)) + rest) == Some((VObject([]), rest))
    ensures ParseValue(Print(Arr(NoItems)) + rest) == Some((VArray([]), rest))
  {
    var s, a := Print(Obj(NoFields)) + rest, Print(Arr(NoItems)) + rest;
    assert s[0] == OPEN_BRACE && s[1] == CLOSE_BRACE && s[2..] == rest;
    assert a[0] == OPEN_BRACKET && a[1] == CLOSE_BRACKET && a[2..] == rest;
  }

  lemma Chain(name: Bytes, value: Bytes, more: Bytes, rest: Bytes)
    ensures name + [COLON] + value + rest == name + ([COLON] + (value + rest))
    ensures name + [COLON] + value + [COMMA] + more + rest == name + ([COLON] + (value + ([COMMA] + (more + rest))))
    ensures value + [COMMA] + more + rest == value + ([COMMA] + (more + rest))
  {
  }

  lemma MoreFields(f: Fields)
    requires f.Field?
    ensures var head := InQuotes(Ascii(f.name)) + [COLON] + Print(f.value);
            && PrintFields(f) == (if f.more.NoFields? then head else head + [COMMA] + PrintFields(f.more))
            && MembersOf(f) == [Member(Ascii(f.name), Meaning(f.value))] + MembersOf(f.more)
            && PrintFields(f)[..1] == [QUOTE]
  {
  }

  lemma MoreItems(i: Items)
    requires i.Item?
    ensures PrintItems(i) == if i.more.NoItems? then Print(i.value) else Print(i.value) + [COMMA] + PrintItems(i.more)
    ensures ElementsOf(i) == [Meaning(i.value)] + ElementsOf(i.more)
    ensures PrintItems(i) != [] && PrintItems(i)[0] != CLOSE_BRACKET
  {
    FirstByte(i.value);
  }

  /** A printed value reads back as what it means, whatever follows it; only a number must not run on. */
  lemma {:induction false} PrintedMeans(j: Json, rest: Bytes)
    requires j.Num? ==> NoDigit(rest)
    ensures ParseValue(Print(j) + rest) == Some((Meaning(j), rest))
    decreases j
  {
    match j
    case Null => ParseNull(rest);
    case Str(text) => PrintedText(text, rest);
    case Bin(bytes) => PrintedBytes(bytes, rest);
    case Num(n) => ParseNumber(n, rest);
    case Quoted(n) => ParseQuoted(Digits(n), rest);
    case Obj(fields) =>
      if fields.NoFields? {
        ParseEmpty(rest);
      } else {
        PrintedMembers(fields, rest);
        MoreFields(fields);
        Wrap(OPEN_BRACE, PrintFields(fields), CLOSE_BRACE, rest);
        ParseObject(PrintFields(fields) + ([CLOSE_BRACE] + rest), MembersOf(fields), rest);
      }
    case Arr(items) =>
      if items.NoItems? {
        ParseEmpty(rest);
      } else {
        PrintedElements(items, rest);
        MoreItems(items);
        Wrap(OPEN_BRACKET, PrintItems(items), CLOSE_BRACKET, rest);
        ParseArray(PrintItems(items) + ([CLOSE_BRACKET] + rest), ElementsOf(items), rest);
      }
  }

  lemma {:induction false} PrintedMembers(f: Fields, rest: Bytes)
    requires f.Field?
    ensures ParseMembers(PrintFields(f) + ([CLOSE_BRACE] + rest)) == Some((MembersOf(f), rest))
    decreases f
  {
    var v, end := Print(f.value), [CLOSE_BRACE] + rest;
    var s := PrintFields(f) + end;
    MoreFields(f);
    Chain(InQuotes(Ascii(f.name)), v, PrintFields(f.more), end);
    if f.more.NoFields? {
      ReadName(f.name, v + end);
      PrintedMeans(f.value, end);
      LastMember(s, Ascii(f.name), v + end, Meaning(f.value), rest);
      assert MembersOf(f) == [Member(Ascii(f.name), Meaning(f.value))];
    } else {
      var u := PrintFields(f.more) + end;
      ReadName(f.name, v + ([COMMA] + u));
      PrintedMeans(f.value, [COMMA] + u);
      PrintedMembers(f.more, rest);
      NextMember(s, Ascii(f.name), v + ([COMMA] + u), Meaning(f.value), u, MembersOf(f.more), rest);
    }
  }

  lemma {:induction false} PrintedElements(i: Items, rest: Bytes)
    requires i.Item?
    ensures ParseElements(PrintItems(i) + ([CLOSE_BRACKET] + rest)) == Some((ElementsOf(i), rest))
    decreases i
  {
    var v, end := Print(i.value), [CLOSE_BRACKET] + rest;
    var s := PrintItems(i) + end;
    MoreItems(i);
    Chain([], v, PrintItems(i.more), end);
    if i.more.NoItems? {
      PrintedMeans(i.value, end);
      LastElement(s, Meaning(i.value), rest);
      assert ElementsOf(i) == [Meaning(i.value)];
    } else {
      var u := PrintItems(i.more) + end;
      PrintedMeans(i.value, [COMMA] + u);
      PrintedElements(i.more, rest);
      NextElement(s, Meaning(i.value), u, ElementsOf(i.more), rest);
    }
  }

  // Predicted sizes.

  /** The bytes by which a predicted size stays behind: those of the strings in the value. */
  function Deficit(j: Json): (n: nat) {
    match j
    case Str(text) => StringDeficit(text)
    case Obj(fields) => DeficitOfFields(fields)
    case Arr(items) => DeficitOfItems(items)
    case _ => 0
  }

  function DeficitOfFields(f: Fields): (n: nat) {
    if f.NoFields? then 0 else Deficit(f.value) + DeficitOfFields(f.more)
  }

  function DeficitOfItems(i: Items): (n: nat) {
    if i.NoItems? then 0 else Deficit(i.value) + DeficitOfItems(i.more)
  }

  /** The size is the length of the printed text, but for what its strings are missed by. */
  predicate Predicts(size: int, j: Json) { size + Deficit(j) == |Print(j)| }

  predicate PredictsFields(size: int, f: Fields) { size + DeficitOfFields(f) == |PrintFields(f)| }

  lemma FieldSize(f: Fields, size: int, more: int)
    requires f.Field? && Predicts(size, f.value) && PredictsFields(more, f.more)
    ensures PredictsFields(2 + |f.name| + 1 + size + (if f.more.NoFields? then 0 else 1 + more), f)
  {
    MoreFields(f);
  }

  function Record1(a: Name, x: Json): (j: Json) { Obj(Field(a, x, NoFields)) }

  function Record2(a: Name, x: Json, b: Name, y: Json): (j: Json) { Obj(Field(a, x, Field(b, y, NoFields))) }

  lemma Record1Size(a: Name, x: Json, i: int)
    requires Predicts(i, x)
    ensures Predicts(2 + (|a| + 3 + i), Record1(a, x))
  {
    FieldSize(Field(a, x, NoFields), i, 0);
  }

  lemma Record2Size(a: Name, x: Json, i: int, b: Name, y: Json, j: int)
    requires Predicts(i, x) && Predicts(j, y)
    ensures Predicts(2 + (|a| + 3 + i) + 1 + (|b| + 3 + j), Record2(a, x, b, y))
  {
    var f := Field(b, y, NoFields);
    FieldSize(f, j, 0);
    FieldSize(Field(a, x, f), i, |b| + 3 + j);
  }

  lemma Record3Size(a: Name, x: Json, i: int, b: Name, y: Json, j: int, c: Name, z: Json, k: int)
    requires Predicts(i, x) && Predicts(j, y) && Predicts(k, z)
    ensures Predicts(2 + (|a| + 3 + i) + 1 + (|b| + 3 + j) + 1 + (|c| + 3 + k),
                     Obj(Field(a, x, Field(b, y, Field(c, z, NoFields)))))
  {
    var g := Field(c, z, NoFields);
    var f := Field(b, y, g);
    FieldSize(g, k, 0);
    FieldSize(f, j, |c| + 3 + k);
    FieldSize(Field(a, x, f), i, (|b| + 3 + j) + 1 + (|c| + 3 + k));
  }

  /** Two more fields before the fields of an object. */
  lemma TwoMoreFields(a: Name, x: Json, i: int, b: Name, y: Json, j: int, fields: Fields, size: int)
    requires Predicts(i, x) && Predicts(j, y) && fields.Field? && Predicts(2 + size, Obj(fields))
    ensures Predicts(2 + (|a| + 3 + i) + 1 + (|b| + 3 + j) + 1 + size, Obj(Field(a, x, Field(b, y, fields))))
  {
    var f := Field(b, y, fields);
    FieldSize(f, j, size);
    FieldSize(Field(a, x, f), i, (|b| + 3 + j) + 1 + size);
  }

  /** Every string is valid UTF-8 without U+2028 and U+2029. */
  ghost predicate AllClean(j: Json) {
    match j
    case Str(text) => Clean(text)
    case Obj(fields) => AllCleanFields(fields)
    case Arr(items) => AllCleanItems(items)
    case _ => true
  }

  ghost predicate AllCleanFields(f: Fields) { f.Field? ==> AllClean(f.value) && AllCleanFields(f.more) }

  ghost predicate AllCleanItems(i: Items) { i.Item? ==> AllClean(i.value) && AllCleanItems(i.more) }

  lemma {:induction false} DeficitIffUnclean(j: Json)
    ensures Deficit(j) == 0 <==> AllClean(j)
    decreases j
  {
    match j
    case Str(text) => StringSizeExactness(text);
    case Obj(fields) => FieldsDeficitIffUnclean(fields);
    case Arr(items) => ItemsDeficitIffUnclean(items);
    case _ =>
  }

  lemma {:induction false} FieldsDeficitIffUnclean(f: Fields)
    ensures DeficitOfFields(f) == 0 <==> AllCleanFields(f)
    decreases f
  {
    if f.Field? {
      DeficitIffUnclean(f.value);
      FieldsDeficitIffUnclean(f.more);
    }
  }

  lemma {:induction false} ItemsDeficitIffUnclean(i: Items)
    ensures DeficitOfItems(i) == 0 <==> AllCleanItems(i)
    decreases i
  {
    if i.Item? {
      DeficitIffUnclean(i.value);
      ItemsDeficitIffUnclean(i.more);
    }
  }

  /** A predicted size is never too large, and it is exact if and only if every string is clean. */
  lemma PredictionExactness(size: int, j: Json)
    requires Predicts(size, j)
    ensures size <= |Print(j)|
    ensures size == |Print(j)| <==> AllClean(j)
  {
    DeficitIffUnclean(j);
  }
}
