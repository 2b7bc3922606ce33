/** The Python-style JSON printer and the order-preserving reader, and their round trip. */
module PyJson {
  import opened Basics

  datatype Value =
    | Null
    | Bool(b: bool)
    | Str(s: string)
    | Num(lit: string)          // a number literal, kept as written
    | Arr(items: seq<Value>)
    | Obj(fields: seq<Field>)   // in insertion order

  datatype Field = Field(key: string, val: Value)

  // The ordered object.

  /** Appends a key, or overwrites it where it stands. */
  function SetField(fields: seq<Field>, k: string, v: Value): (r: seq<Field>)
    ensures (forall f :: f in fields ==> f.key != k) ==> r == fields + [Field(k, v)]
    ensures |r| == |fields| || |r| == |fields| + 1
  {
    if fields == [] then [Field(k, v)]
    else if fields[0].key == k then [Field(k, v)] + fields[1..]
    else
      assert fields == [fields[0]] + fields[1..];
      [fields[0]] + SetField(fields[1..], k, v)
  }

  predicate DistinctKeys(fields: seq<Field>) {
    forall i, j :: 0 <= i < j < |fields| ==> fields[i].key != fields[j].key
  }

  // Printing.

  function HexDigit(n: int): (c: char)
    requires 0 <= n < 16
  {
    "0123456789abcdef"[n]
  }

  /** The four digits of a 16-bit unit. */
  function Hex4(n: int): (r: string)
    requires 0 <= n < 0x1_0000
    ensures |r| == 4
  {
    [HexDigit(n / 4096), HexDigit(n / 256 % 16), HexDigit(n / 16 % 16), HexDigit(n % 16)]
  }

  function Unit(n: int): (r: string)
    requires 0 <= n < 0x1_0000
    ensures |r| == 6
  {
    ['\\', 'u'] + Hex4(n)
  }

  function Quoted(c: char, ascii: bool): (r: string)
    ensures r != ""
  {
    var v := c as int;
    if c == '"' then ['\\', '"']
    else if c == '\\' then ['\\', '\\']
    else if c == '\n' then ['\\', 'n']
    else if c == '\r' then ['\\', 'r']
    else if c == '\t' then ['\\', 't']
    else if v == 8 then ['\\', 'b']
    else if v == 12 then ['\\', 'f']
    else if v < 0x20 then Unit(v)
    else if ascii && v > 0x7f then
      if v > 0xffff then
        var v2 := v - 0x1_0000;
        Unit(0xd800 + v2 / 1024) + Unit(0xdc00 + v2 % 1024)
      else Unit(v)
    else [c]
  }

  function QuotedAll(s: string, ascii: bool): string {
    if s == "" then "" else Quoted(s[0], ascii) + QuotedAll(s[1..], ascii)
  }

  function PyQuote(s: string, ascii: bool): string {
    ['"'] + QuotedAll(s, ascii) + ['"']
  }

  predicate IsFraction(lit: string) {
    exists i :: 0 <= i < |lit| && lit[i] in {'.', 'e', 'E'}
  }

  /** Integer literals pass through; others go through the host's float formatting. */
  function FormatNumber(float: string -> string, lit: string): string {
    if IsFraction(lit) then float(lit) else lit
  }

  function Dumps(float: string -> string, v: Value, ascii: bool): string
    decreases v
  {
    match v
    case Null => "null"
    case Bool(b) => if b then "true" else "false"
    case Str(s) => PyQuote(s, ascii)
    case Num(lit) => FormatNumber(float, lit)
    case Arr(items) => "[" + DumpsItems(float, items, ascii) + "]"
    case Obj(fields) => "{" + DumpsFields(float, fields, ascii) + "}"
  }

  function DumpsItems(float: string -> string, items: seq<Value>, ascii: bool): string
    decreases items, 1
  {
    if items == [] then "" else Dumps(float, items[0], ascii) + MoreItems(float, items[1..], ascii)
  }

  function MoreItems(float: string -> string, items: seq<Value>, ascii: bool): string
    decreases items, 0
  {
    if items == [] then "" else ", " + Dumps(float, items[0], ascii) + MoreItems(float, items[1..], ascii)
  }

  function DumpsField(float: string -> string, f: Field, ascii: bool): string
    decreases f
  {
    PyQuote(f.key, ascii) + ": " + Dumps(float, f.val, ascii)
  }

  function DumpsFields(float: string -> string, fields: seq<Field>, ascii: bool): string
    decreases fields, 1
  {
    if fields == [] then "" else DumpsField(float, fields[0], ascii) + MoreFields(float, fields[1..], ascii)
  }

  function MoreFields(float: string -> string, fields: seq<Field>, ascii: bool): string
    decreases fields, 0
  {
    if fields == [] then "" else ", " + DumpsField(float, fields[0], ascii) + MoreFields(float, fields[1..], ascii)
  }

  // The token reader (RFC 8259), as a stream decoder over the rest of the text.

  datatype Mode = TopValue | ArrayStart | ArrayValue | ArrayComma
    | ObjectStart | ObjectKey | ObjectColon | ObjectValue | ObjectComma

  datatype Reader = Reader(rest: string, mode: Mode, stack: seq<Mode>)

  datatype Token = OpenArr | CloseArr | OpenObj | CloseObj
    | Text(s: string) | Number(lit: string) | Boolean(b: bool) | Nil

  predicate ValueAllowed(m: Mode) {
    m == TopValue || m == ArrayStart || m == ArrayValue || m == ObjectValue
  }

  /** The mode after a value. */
  function Ended(m: Mode): Mode {
    match m
    case ArrayStart => ArrayComma
    case ArrayValue => ArrayComma
    case ObjectValue => ObjectComma
    case _ => m
  }

  function SkipSpace(s: string): (r: string)
    ensures |r| <= |s| && (r == "" || r[0] !in {' ', '\t', '\r', '\n'})
    ensures s == "" || s[0] !in {' ', '\t', '\r', '\n'} ==> r == s
  {
    if s != "" && s[0] in {' ', '\t', '\r', '\n'} then SkipSpace(s[1..]) else s
  }

  function HexValue(c: char): (r: Option<int>)
    ensures r.Some? ==> 0 <= r.value < 16
  {
    if '0' <= c <= '9' then Some(c as int - '0' as int)
    else if 'a' <= c <= 'f' then Some(c as int - 'a' as int + 10)
    else if 'A' <= c <= 'F' then Some(c as int - 'A' as int + 10)
    else None
  }

  /** A `\uXXXX` escape at the start of the text. */
  function Unit4(s: string): (r: Option<int>)
    ensures r.Some? ==> 0 <= r.value < 0x1_0000 && |s| >= 6
  {
    if |s| < 6 || s[0] != '\\' || s[1] != 'u' then None
    else match (HexValue(s[2]), HexValue(s[3]), HexValue(s[4]), HexValue(s[5]))
      case (Some(a), Some(b), Some(c), Some(d)) => Some(a * 4096 + b * 256 + c * 16 + d)
      case _ => None
  }

  const REPLACEMENT: char := 0xfffd as char

  /** The text of a string token, up to and without its closing quote. */
  function ReadText(s: string, acc: string): (r: Option<(string, string)>)
    ensures r.Some? ==> |r.value.1| < |s|
    decreases |s|
  {
    if s == "" then None
    else if s[0] == '"' then Some((acc, s[1..]))
    else if s[0] as int < 0x20 then None
    else if s[0] != '\\' then ReadText(s[1..], acc + [s[0]])
    else if |s| == 1 then None
    else if s[1] == 'u' then
      match Unit4(s)
      case None => None
      case Some(hi) =>
        if 0xd800 <= hi < 0xe000 then
          match Unit4(s[6..])
          case Some(lo) =>
            if hi < 0xdc00 && 0xdc00 <= lo < 0xe000 then
              ReadText(s[12..], acc + [(0x1_0000 + (hi - 0xd800) * 1024 + (lo - 0xdc00)) as char])
            else ReadText(s[6..], acc + [REPLACEMENT])
          case None => ReadText(s[6..], acc + [REPLACEMENT])
        else ReadText(s[6..], acc + [hi as char])
    else
      match Unescape(s[1])
      case Some(c) => ReadText(s[2..], acc + [c])
      case None => None
  }

  function Unescape(c: char): Option<char> {
    if c == '"' || c == '\\' || c == '/' then Some(c)
    else if c == 'n' then Some('\n')
    else if c == 'r' then Some('\r')
    else if c == 't' then Some('\t')
    else if c == 'b' then Some(8 as char)
    else if c == 'f' then Some(12 as char)
    else None
  }

  predicate Digit(c: char) { '0' <= c <= '9' }

  /** The number of leading digits. */
  function Digits(s: string): (n: nat)
    ensures n <= |s| && (forall i :: 0 <= i < n ==> Digit(s[i])) && (n < |s| ==> !Digit(s[n]))
  {
    if s != "" && Digit(s[0]) then 1 + Digits(s[1..]) else 0
  }

  /** The length of the integer part of a number, if there is one. */
  function IntLength(s: string): (n: Option<nat>)
    ensures n.Some? ==> 0 < n.value <= |s|
  {
    var sign := if s != "" && s[0] == '-' then 1 else 0;
    var t := s[sign..];
    if t == "" || !Digit(t[0]) then None
    else if t[0] == '0' then Some(sign + 1)
    else Some(sign + Digits(t))
  }

  function FractionLength(s: string): (n: Option<nat>)
    ensures n.Some? ==> n.value <= |s|
  {
    if s == "" || s[0] != '.' then Some(0)
    else if Digits(s[1..]) == 0 then None
    else Some(1 + Digits(s[1..]))
  }

  function ExponentLength(s: string): (n: Option<nat>)
    ensures n.Some? ==> n.value <= |s|
  {
    if s == "" || s[0] !in {'e', 'E'} then Some(0)
    else
      var sign := if |s| > 1 && s[1] in {'+', '-'} then 1 else 0;
      if Digits(s[1 + sign..]) == 0 then None else Some(1 + sign + Digits(s[1 + sign..]))
  }

  /** The longest number the text starts with. */
  function NumberLength(s: string): (n: Option<nat>)
    ensures n.Some? ==> 0 < n.value <= |s|
  {
    match IntLength(s)
    case None => None
    case Some(i) =>
      match FractionLength(s[i..])
      case None => None
      case Some(f) =>
        match ExponentLength(s[i + f..])
        case None => None
        case Some(e) => Some(i + f + e)
  }

  predicate StartsWith(s: string, word: string) {
    |s| >= |word| && s[..|word|] == word
  }

  function Scalar(s: string): (r: Option<(Token, string)>)
    requires s != ""
    ensures r.Some? ==> |r.value.1| < |s|
  {
    if s[0] == '"' then
      match ReadText(s[1..], "")
      case Some((text, rest)) => Some((Text(text), rest))
      case None => None
    else if StartsWith(s, "null") then Some((Nil, s[4..]))
    else if StartsWith(s, "true") then Some((Boolean(true), s[4..]))
    else if StartsWith(s, "false") then Some((Boolean(false), s[5..]))
    else
      match NumberLength(s)
      case Some(n) => Some((Number(s[..n]), s[n..]))
      case None => None
  }

  /** The next token; separators are consumed where the mode expects them. */
  function NextToken(r: Reader): (o: Option<(Token, Reader)>)
    ensures o.Some? ==> |o.value.1.rest| < |r.rest|
    decreases |r.rest|
  {
    var s := SkipSpace(r.rest);
    if s == "" then None
    else
      match s[0]
      case '[' =>
        if ValueAllowed(r.mode) then Some((OpenArr, Reader(s[1..], ArrayStart, [r.mode] + r.stack))) else None
      case '{' =>
        if ValueAllowed(r.mode) then Some((OpenObj, Reader(s[1..], ObjectStart, [r.mode] + r.stack))) else None
      case ']' =>
        if (r.mode == ArrayStart || r.mode == ArrayComma) && r.stack != [] then
          Some((CloseArr, Reader(s[1..], Ended(r.stack[0]), r.stack[1..])))
        else None
      case '}' =>
        if (r.mode == ObjectStart || r.mode == ObjectComma) && r.stack != [] then
          Some((CloseObj, Reader(s[1..], Ended(r.stack[0]), r.stack[1..])))
        else None
      case ':' =>
        if r.mode == ObjectColon then NextToken(Reader(s[1..], ObjectValue, r.stack)) else None
      case ',' =>
        if r.mode == ArrayComma then NextToken(Reader(s[1..], ArrayValue, r.stack))
        else if r.mode == ObjectComma then NextToken(Reader(s[1..], ObjectKey, r.stack))
        else None
      case _ =>
        if s[0] == '"' && (r.mode == ObjectStart || r.mode == ObjectKey) then
          match Scalar(s)
          case Some((tok, rest)) => Some((tok, Reader(rest, ObjectColon, r.stack)))
          case None => None
        else if ValueAllowed(r.mode) then
          match Scalar(s)
          case Some((tok, rest)) => Some((tok, Reader(rest, Ended(r.mode), r.stack)))
          case None => None
        else None
  }

  /** Something other than a closing bracket comes next. */
  predicate More(r: Reader) {
    var s := SkipSpace(r.rest);
    s != "" && s[0] != ']' && s[0] != '}'
  }

  // Reading.

  function ReadValue(r: Reader): (o: Option<(Value, Reader)>)
    ensures o.Some? ==> |o.value.1.rest| < |r.rest|
    decreases |r.rest|, 1
  {
    match NextToken(r)
    case None => None
    case Some((tok, r')) =>
      match tok
      case OpenObj => ReadFields(r', [])
      case OpenArr => ReadItems(r', [])
      case Text(s) => Some((Str(s), r'))
      case Number(lit) => Some((Num(lit), r'))
      case Boolean(b) => Some((Bool(b), r'))
      case Nil => Some((Null, r'))
      case _ => None
  }

  function ReadItems(r: Reader, acc: seq<Value>): (o: Option<(Value, Reader)>)
    ensures o.Some? ==> |o.value.1.rest| < |r.rest|
    decreases |r.rest|, 2
  {
    if More(r) then
      match ReadValue(r)
      case Some((v, r')) => ReadItems(r', acc + [v])
      case None => None
    else
      match NextToken(r)
      case Some((_, r')) => Some((Arr(acc), r'))
      case None => None
  }

  function ReadFields(r: Reader, acc: seq<Field>): (o: Option<(Value, Reader)>)
    ensures o.Some? ==> |o.value.1.rest| < |r.rest|
    decreases |r.rest|, 2
  {
    if More(r) then
      match NextToken(r)
      case Some((Text(key), r')) =>
        (match ReadValue(r')
         case Some((v, r'')) => ReadFields(r'', SetField(acc, key, v))
         case None => None)
      case _ => None
    else
      match NextToken(r)
      case Some((_, r')) => Some((Obj(acc), r'))
      case None => None
  }

  /** Reads one value; what follows must not look like more. */
  function DecodeOrdered(s: string): Option<Value> {
    match ReadValue(Reader(s, TopValue, []))
    case Some((v, r)) => if More(r) then None else Some(v)
    case None => None
  }

  // The reader never goes wrong on any text.

  predicate BeforeValue(m: Mode) {
    ValueAllowed(m) || m == ArrayComma || m == ObjectColon
  }

  /** The mode after the value that is read from this mode. */
  function AfterValue(m: Mode): Mode {
    if m == ObjectColon then ObjectComma else Ended(m)
  }

  /** One level deeper, to return to the mode after this value. */
  ghost predicate Nested(r: Reader, r': Reader) {
    r'.stack != [] && r'.stack[1..] == r.stack && Ended(r'.stack[0]) == AfterValue(r.mode)
  }

  /** What a token read before a value leaves behind. */
  ghost predicate Leaves(r: Reader, tok: Token, r': Reader) {
    match tok
    case OpenArr => r'.mode == ArrayStart && Nested(r, r')
    case OpenObj => r'.mode == ObjectStart && Nested(r, r')
    case CloseArr => (r.mode == ArrayStart || r.mode == ArrayComma) && !More(r)
    case CloseObj => false
    case _ => r'.mode == AfterValue(r.mode) && r'.stack == r.stack
  }

  lemma TokenHere(r: Reader)
    requires NextToken(r).Some? && ValueAllowed(r.mode)
    ensures var (tok, r') := NextToken(r).value; Leaves(r, tok, r')
  {
    hide NextToken;
    hide Leaves;
    var s := SkipSpace(r.rest);
    TokenIs(r);
    if s[0] == '[' || s[0] == '{' {
      Pushed(r.mode, r.stack);
      OpensLeave(r, s[1..]);
    } else if s[0] == ']' {
      CloseLeaves(r);
    } else {
      ScalarLeaves(r, s);
    }
  }

  /** The token read where a value may stand, case by case. */
  lemma TokenIs(r: Reader)
    requires NextToken(r).Some? && ValueAllowed(r.mode)
    ensures var s, (tok, r') := SkipSpace(r.rest), NextToken(r).value;
      && s != "" && s[0] != '}'
      && (s[0] == '[' ==> tok == OpenArr && r' == Reader(s[1..], ArrayStart, [r.mode] + r.stack))
      && (s[0] == '{' ==> tok == OpenObj && r' == Reader(s[1..], ObjectStart, [r.mode] + r.stack))
      && (s[0] == ']' ==> tok == CloseArr && r.mode == ArrayStart)
      && (s[0] !in {'[', '{', ']'} ==>
            Scalar(s).Some? && tok == Scalar(s).value.0 && r'.mode == Ended(r.mode) && r'.stack == r.stack)
  {
    hide Scalar;
    hide SkipSpace;
  }

  lemma OpensLeave(r: Reader, t: string)
    requires ValueAllowed(r.mode) && ([r.mode] + r.stack)[1..] == r.stack
    ensures Leaves(r, OpenArr, Reader(t, ArrayStart, [r.mode] + r.stack))
    ensures Leaves(r, OpenObj, Reader(t, ObjectStart, [r.mode] + r.stack))
  {
  }

  lemma CloseLeaves(r: Reader)
    requires r.mode == ArrayStart && SkipSpace(r.rest) != "" && SkipSpace(r.rest)[0] == ']'
    ensures forall r' :: Leaves(r, CloseArr, r')
  {
  }

  lemma ScalarLeaves(r: Reader, s: string)
    requires ValueAllowed(r.mode) && s != "" && Scalar(s).Some?
    ensures forall r': Reader :: r'.mode == Ended(r.mode) && r'.stack == r.stack ==> Leaves(r, Scalar(s).value.0, r')
  {
    hide Scalar;
    ScalarTokens();
  }

  lemma Pushed(m: Mode, stack: seq<Mode>)
    ensures ([m] + stack)[0] == m && ([m] + stack)[1..] == stack
  {
  }

  lemma SeparatorFirst(r: Reader)
    requires NextToken(r).Some? && (r.mode == ArrayComma || r.mode == ObjectColon)
    ensures var s := SkipSpace(r.rest);
      && s != ""
      && (NextToken(r) == NextToken(Reader(s[1..], if r.mode == ArrayComma then ArrayValue else ObjectValue, r.stack))
          || (r.mode == ArrayComma && !More(r) && NextToken(r).value.0 == CloseArr))
  {
    hide Scalar;
  }

  lemma TokenModes(r: Reader)
    requires NextToken(r).Some? && BeforeValue(r.mode)
    ensures var (tok, r') := NextToken(r).value; Leaves(r, tok, r')
  {
    hide NextToken;
    if ValueAllowed(r.mode) {
      TokenHere(r);
    } else {
      SeparatorFirst(r);
      var after := Reader(SkipSpace(r.rest)[1..], if r.mode == ArrayComma then ArrayValue else ObjectValue, r.stack);
      if NextToken(r) == NextToken(after) {
        TokenHere(after);
      }
    }
  }

  lemma ScalarTokens()
    ensures forall s :: s != "" && Scalar(s).Some? ==>
      Scalar(s).value.0.Text? || Scalar(s).value.0.Number? || Scalar(s).value.0.Boolean? || Scalar(s).value.0.Nil?
  {
    hide ReadText;
    hide NumberLength;
  }

  /** Where an object expects a key, the next token is a string or the reader fails: a key is
      never anything else. */
  lemma KeyIsText(r: Reader)
    requires (r.mode == ObjectStart || r.mode == ObjectComma) && More(r) && NextToken(r).Some?
    ensures var (tok, r') := NextToken(r).value; tok.Text? && r'.mode == ObjectColon && r'.stack == r.stack
  {
    hide ReadText;
    hide NumberLength;
  }

  lemma ClosesInside(r: Reader)
    requires !More(r) && NextToken(r).Some?
    requires r.mode == ArrayStart || r.mode == ArrayComma || r.mode == ObjectStart || r.mode == ObjectComma
    ensures var (tok, r') := NextToken(r).value;
      && r.stack != [] && r'.stack == r.stack[1..] && r'.mode == Ended(r.stack[0])
      && tok == (if r.mode == ArrayStart || r.mode == ArrayComma then CloseArr else CloseObj)
  {
  }

  /** Reading a value keeps the nesting, whatever the text: the mode moves past one value and the
      stack is as before. */
  lemma {:induction false} ReadKeepsNesting(r: Reader)
    requires BeforeValue(r.mode) && ReadValue(r).Some?
    ensures var r' := ReadValue(r).value.1; r'.mode == AfterValue(r.mode) && r'.stack == r.stack
    decreases |r.rest|, 1
  {
    hide NextToken;
    hide More;
    TokenModes(r);
    var (tok, r') := NextToken(r).value;
    if tok.OpenArr? {
      ItemsKeepNesting(r', []);
    } else if tok.OpenObj? {
      FieldsKeepNesting(r', []);
    }
  }

  lemma {:induction false} ItemsKeepNesting(r: Reader, acc: seq<Value>)
    requires (r.mode == ArrayStart || r.mode == ArrayComma) && r.stack != [] && ReadItems(r, acc).Some?
    ensures var r' := ReadItems(r, acc).value.1; r'.mode == Ended(r.stack[0]) && r'.stack == r.stack[1..]
    decreases |r.rest|, 2
  {
    hide NextToken;
    hide More;
    if More(r) {
      ReadKeepsNesting(r);
      var (v, r') := ReadValue(r).value;
      ItemsKeepNesting(r', acc + [v]);
    } else {
      ClosesInside(r);
    }
  }

  lemma {:induction false} FieldsKeepNesting(r: Reader, acc: seq<Field>)
    requires (r.mode == ObjectStart || r.mode == ObjectComma) && r.stack != [] && ReadFields(r, acc).Some?
    ensures var r' := ReadFields(r, acc).value.1; r'.mode == Ended(r.stack[0]) && r'.stack == r.stack[1..]
    decreases |r.rest|, 2
  {
    hide NextToken;
    hide More;
    hide SetField;
    if More(r) {
      KeyIsText(r);
      var (key, r1) := NextToken(r).value;
      ReadKeepsNesting(r1);
      var (v, r2) := ReadValue(r1).value;
      FieldsKeepNesting(r2, SetField(acc, key.s, v));
    } else {
      ClosesInside(r);
    }
  }

  // Reading back what was printed.

  lemma HexReads(n: int)
    requires 0 <= n < 16
    ensures HexValue(HexDigit(n)) == Some(n) && HexDigit(n) as int < 0x80
  {
  }

  lemma FourDigits(n: int)
    requires 0 <= n < 0x1_0000
    ensures 0 <= n / 4096 < 16
    ensures n / 4096 * 4096 + n / 256 % 16 * 256 + n / 16 % 16 * 16 + n % 16 == n
  {
    assert n / 256 == n / 16 / 16 && n / 4096 == n / 16 / 16 / 16;
  }

  lemma UnitReads(n: int, t: string)
    requires 0 <= n < 0x1_0000
    ensures Unit4(Unit(n) + t) == Some(n) && (Unit(n) + t)[6..] == t
  {
    hide HexValue;
    hide HexDigit;
    FourDigits(n);
    HexReads(n / 4096);
    HexReads(n / 256 % 16);
    HexReads(n / 16 % 16);
    HexReads(n % 16);
    var s := Unit(n) + t;
    assert s[0] == '\\' && s[1] == 'u';
    assert s[2] == HexDigit(n / 4096) && s[3] == HexDigit(n / 256 % 16);
    assert s[4] == HexDigit(n / 16 % 16) && s[5] == HexDigit(n % 16);
  }

  /** One printed character reads back as itself. */
  lemma CharReads(c: char, ascii: bool, t: string, acc: string)
    ensures ReadText(Quoted(c, ascii) + t, acc) == ReadText(t, acc + [c])
  {
    hide Unit;
    hide Unit4;
    var v, s := c as int, Quoted(c, ascii) + t;
    if c in {'"', '\\', '\n', '\r', '\t'} || v == 8 || v == 12 {
      assert s[2..] == t;
    } else if v < 0x20 || (ascii && 0x7f < v <= 0xffff) {
      UnitChar(c, v, t, acc);
    } else if ascii && v > 0xffff {
      PairReads(c, t, acc);
    } else {
      assert s[1..] == t;
    }
  }

  lemma UnitChar(c: char, v: int, t: string, acc: string)
    requires v == c as int <= 0xffff
    ensures ReadText(Unit(v) + t, acc) == ReadText(t, acc + [c])
  {
    UnitReads(v, t);
    var s := Unit(v) + t;
    assert s[0] == '\\' && s[1] == 'u';
  }

  lemma PairValue(v2: int)
    requires 0 <= v2 < 0x10_0000
    ensures 0xd800 <= 0xd800 + v2 / 1024 < 0xdc00 <= 0xdc00 + v2 % 1024 < 0xe000
    ensures 0x1_0000 + (0xd800 + v2 / 1024 - 0xd800) * 1024 + (0xdc00 + v2 % 1024 - 0xdc00) == 0x1_0000 + v2
  {
  }

  lemma PairText(s: string, hi: int, lo: int, t: string, acc: string)
    requires 0xd800 <= hi < 0xdc00 <= lo < 0xe000
    requires s != "" && s[0] == '\\' && Unit4(s) == Some(hi) && s[1] == 'u'
    requires Unit4(s[6..]) == Some(lo) && s[6..][6..] == t
    ensures ReadText(s, acc) == ReadText(t, acc + [(0x1_0000 + (hi - 0xd800) * 1024 + (lo - 0xdc00)) as char])
  {
    hide Unit4;
    assert s[12..] == t;
  }

  /** A surrogate pair reads back as the character it stands for. */
  lemma PairReads(c: char, t: string, acc: string)
    requires c as int > 0xffff
    ensures var v2 := c as int - 0x1_0000;
      && 0xd800 + v2 / 1024 < 0x1_0000 && 0xdc00 + v2 % 1024 < 0x1_0000
      && ReadText(Unit(0xd800 + v2 / 1024) + Unit(0xdc00 + v2 % 1024) + t, acc) == ReadText(t, acc + [c])
  {
    hide ReadText;
    hide Unit4;
    hide Unit;
    var v2 := c as int - 0x1_0000;
    PairValue(v2);
    var hi, lo := 0xd800 + v2 / 1024, 0xdc00 + v2 % 1024;
    var low := Unit(lo) + t;
    var s := Unit(hi) + low;
    assert Unit(hi) + Unit(lo) + t == s;
    UnitReads(hi, low);
    UnitReads(lo, t);
    UnitStart(hi, low);
    PairText(s, hi, lo, t, acc);
  }

  lemma UnitStart(n: int, t: string)
    requires 0 <= n < 0x1_0000
    ensures var s := Unit(n) + t; |s| >= 2 && s[0] == '\\' && s[1] == 'u'
  {
  }

  lemma {:induction false} TextReads(s: string, ascii: bool, t: string, acc: string)
    ensures ReadText(QuotedAll(s, ascii) + (['"'] + t), acc) == Some((acc + s, t))
  {
    hide Quoted;
    if s == "" {
      assert QuotedAll(s, ascii) + (['"'] + t) == ['"'] + t;
      assert (['"'] + t)[1..] == t;
      assert acc + s == acc;
    } else {
      var rest := QuotedAll(s[1..], ascii) + (['"'] + t);
      assert QuotedAll(s, ascii) + (['"'] + t) == Quoted(s[0], ascii) + rest;
      CharReads(s[0], ascii, rest, acc);
      TextReads(s[1..], ascii, t, acc + [s[0]]);
      assert acc + [s[0]] + s[1..] == acc + s;
    }
  }

  lemma QuoteReads(s: string, ascii: bool, t: string)
    ensures var printed := PyQuote(s, ascii) + t;
      printed != "" && printed[0] == '"' && Scalar(printed) == Some((Text(s), t))
  {
    var printed := PyQuote(s, ascii) + t;
    assert printed[1..] == QuotedAll(s, ascii) + (['"'] + t);
    TextReads(s, ascii, t, "");
    assert "" + s == s;
  }

  /** An integer literal: an optional sign and digits without a leading zero. */
  predicate IsInteger(lit: string) {
    IntLength(lit) == Some(|lit|)
  }

  /** What may follow a printed value: the end, a comma or a closing bracket. */
  predicate Delimited(t: string) {
    t == "" || t[0] == ',' || t[0] == ']' || t[0] == '}'
  }

  lemma {:induction false} DigitsAppend(a: string, t: string)
    requires Digits(a) == |a| && Delimited(t)
    ensures Digits(a + t) == |a|
  {
    if a == "" {
      assert a + t == t;
    } else {
      assert (a + t)[1..] == a[1..] + t;
      DigitsAppend(a[1..], t);
    }
  }

  lemma IntegerLength(lit: string, t: string)
    requires IsInteger(lit) && Delimited(t)
    ensures IntLength(lit + t) == Some(|lit|)
  {
    var s := lit + t;
    var sign := if lit[0] == '-' then 1 else 0;
    assert s[sign..] == lit[sign..] + t;
    if lit[sign] != '0' {
      DigitsAppend(lit[sign..], t);
    }
  }

  lemma NothingMore(t: string)
    requires Delimited(t)
    ensures FractionLength(t) == Some(0) && ExponentLength(t) == Some(0)
  {
  }

  lemma LengthOf(s: string, i: nat)
    requires IntLength(s) == Some(i) && FractionLength(s[i..]) == Some(0) && ExponentLength(s[i..]) == Some(0)
    ensures NumberLength(s) == Some(i)
  {
    hide IntLength;
    hide FractionLength;
    hide ExponentLength;
  }

  lemma IntegerReads(lit: string, t: string)
    requires IsInteger(lit) && Delimited(t)
    ensures NumberLength(lit + t) == Some(|lit|) && (lit + t)[..|lit|] == lit && (lit + t)[|lit|..] == t
  {
    hide IntLength;
    hide FractionLength;
    hide ExponentLength;
    hide NumberLength;
    IntegerLength(lit, t);
    NothingMore(t);
    assert (lit + t)[|lit|..] == t;
    LengthOf(lit + t, |lit|);
  }

  lemma IntegerPlain(lit: string)
    requires IsInteger(lit)
    ensures lit != "" && (lit[0] == '-' || Digit(lit[0])) && !IsFraction(lit)
    ensures forall i :: 0 <= i < |lit| ==> lit[i] as int < 0x80
  {
    var sign := if lit[0] == '-' then 1 else 0;
    var t := lit[sign..];
    forall i | 0 <= i < |lit| ensures (i == 0 && lit[0] == '-') || Digit(lit[i]) {
      if i >= sign {
        assert lit[i] == t[i - sign];
      }
    }
  }

  /** Values that print exactly: integer literals, and objects without repeated keys. */
  predicate Plain(v: Value)
    decreases v
  {
    match v
    case Num(lit) => IsInteger(lit)
    case Arr(items) => forall i :: 0 <= i < |items| ==> Plain(items[i])
    case Obj(fields) => DistinctKeys(fields) && forall i :: 0 <= i < |fields| ==> Plain(fields[i].val)
    case _ => true
  }

  predicate Starts(s: string) {
    s != "" && s[0] !in {' ', '\t', '\r', '\n', ',', ':', ']', '}'}
  }

  lemma DumpsStarts(float: string -> string, v: Value, ascii: bool, t: string)
    requires Plain(v)
    ensures Starts(Dumps(float, v, ascii) + t)
  {
    if v.Num? {
      IntegerPlain(v.lit);
    }
  }

  predicate IsScalar(v: Value) { !v.Arr? && !v.Obj? }

  function TokenOf(v: Value): Token
    requires IsScalar(v)
  {
    match v
    case Null => Nil
    case Bool(b) => Boolean(b)
    case Str(s) => Text(s)
    case Num(lit) => Number(lit)
  }

  lemma ScalarReads(float: string -> string, v: Value, ascii: bool, t: string)
    requires Plain(v) && IsScalar(v) && Delimited(t)
    ensures var s := Dumps(float, v, ascii) + t;
      s != "" && s[0] != '[' && s[0] != '{' && Scalar(s) == Some((TokenOf(v), t))
  {
    hide NumberLength;
    hide ReadText;
    hide IntLength;
    hide PyQuote;
    var s := Dumps(float, v, ascii) + t;
    match v {
      case Null => assert s[..4] == "null" && s[4..] == t;
      case Bool(b) =>
        if b {
          assert s[..4] == "true" && s[4..] == t;
        } else {
          assert s[..5] == "false" && s[5..] == t;
        }
      case Str(text) => QuoteReads(text, ascii, t);
      case Num(lit) =>
        IntegerPlain(lit);
        IntegerReads(lit, t);
        assert s == lit + t && (s[0] == '-' || Digit(s[0]));
        assert !StartsWith(s, "null") && !StartsWith(s, "true") && !StartsWith(s, "false") by {
          assert "null"[0] == 'n' && "true"[0] == 't' && "false"[0] == 'f';
          NoWord(s, "null");
          NoWord(s, "true");
          NoWord(s, "false");
        }
    }
  }

  lemma NoWord(s: string, word: string)
    requires s != "" && word != "" && s[0] != word[0]
    ensures !StartsWith(s, word)
  {
    assert |s| >= |word| ==> s[..|word|][0] == s[0];
  }

  lemma ScalarToken(float: string -> string, v: Value, ascii: bool, t: string, mode: Mode, stack: seq<Mode>)
    requires Plain(v) && IsScalar(v) && Delimited(t) && ValueAllowed(mode) && mode != ObjectStart
    ensures NextToken(Reader(Dumps(float, v, ascii) + t, mode, stack))
         == Some((TokenOf(v), Reader(t, Ended(mode), stack)))
  {
    hide Scalar;
    hide Dumps;
    hide TokenOf;
    hide Plain;
    var s := Dumps(float, v, ascii) + t;
    DumpsStarts(float, v, ascii, t);
    ScalarReads(float, v, ascii, t);
    assert SkipSpace(s) == s;
  }

  lemma KeyToken(k: string, ascii: bool, t: string, mode: Mode, stack: seq<Mode>)
    requires mode == ObjectStart || mode == ObjectKey
    ensures NextToken(Reader(PyQuote(k, ascii) + t, mode, stack)) == Some((Text(k), Reader(t, ObjectColon, stack)))
  {
    hide Scalar;
    hide PyQuote;
    var s := PyQuote(k, ascii) + t;
    QuoteReads(k, ascii, t);
    assert SkipSpace(s) == s;
  }

  /** A separator and a space before a value are consumed with it. */
  lemma SeparatorSkips(c: char, t: string, mode: Mode, next: Mode, stack: seq<Mode>)
    requires (mode == ArrayComma && c == ',' && next == ArrayValue)
          || (mode == ObjectComma && c == ',' && next == ObjectKey)
          || (mode == ObjectColon && c == ':' && next == ObjectValue)
    ensures NextToken(Reader([c, ' '] + t, mode, stack)) == NextToken(Reader(t, next, stack))
    ensures c == ',' ==> More(Reader([c, ' '] + t, mode, stack))
  {
    var s := [c, ' '] + t;
    assert SkipSpace(s) == s && s[0] == c && s[1..] == [' '] + t;
    assert SkipSpace([' '] + t) == SkipSpace(t) by {
      assert ([' '] + t)[1..] == t;
    }
    assert NextToken(Reader(s, mode, stack)) == NextToken(Reader([' '] + t, next, stack));
    SameAfterSpace([' '] + t, t, next, stack);
  }

  lemma SameAfterSpace(s: string, t: string, mode: Mode, stack: seq<Mode>)
    requires SkipSpace(s) == SkipSpace(t)
    ensures NextToken(Reader(s, mode, stack)) == NextToken(Reader(t, mode, stack))
  {
    hide Scalar;
  }

  lemma ValueAfter(r: Reader, r': Reader)
    requires NextToken(r) == NextToken(r')
    ensures ReadValue(r) == ReadValue(r')
  {
    hide NextToken;
  }

  /** An opening bracket where a value may stand. */
  lemma OpensBracket(t: string, mode: Mode, stack: seq<Mode>)
    requires ValueAllowed(mode)
    ensures NextToken(Reader(['['] + t, mode, stack)) == Some((OpenArr, Reader(t, ArrayStart, [mode] + stack)))
    ensures NextToken(Reader(['{'] + t, mode, stack)) == Some((OpenObj, Reader(t, ObjectStart, [mode] + stack)))
  {
    assert (['['] + t)[1..] == t && (['{'] + t)[1..] == t;
  }

  lemma ClosesBracket(t: string, inner: Mode, mode: Mode, stack: seq<Mode>)
    ensures !More(Reader([']'] + t, inner, [mode] + stack)) && !More(Reader(['}'] + t, inner, [mode] + stack))
    ensures inner == ArrayStart || inner == ArrayComma ==>
      NextToken(Reader([']'] + t, inner, [mode] + stack)) == Some((CloseArr, Reader(t, Ended(mode), stack)))
    ensures inner == ObjectStart || inner == ObjectComma ==>
      NextToken(Reader(['}'] + t, inner, [mode] + stack)) == Some((CloseObj, Reader(t, Ended(mode), stack)))
  {
    assert ([']'] + t)[1..] == t && (['}'] + t)[1..] == t;
    assert ([mode] + stack)[1..] == stack;
  }

  /** A printed value, wherever one may stand, reads back as itself. */
  lemma {:induction false} ValueReads(float: string -> string, v: Value, ascii: bool, t: string, mode: Mode,
                                      stack: seq<Mode>)
    requires Plain(v) && Delimited(t) && ValueAllowed(mode)
    ensures ReadValue(Reader(Dumps(float, v, ascii) + t, mode, stack)) == Some((v, Reader(t, Ended(mode), stack)))
    decreases v
  {
    hide NextToken;
    hide ReadItems;
    hide ReadFields;
    hide Dumps;
    hide DumpsItems;
    hide DumpsFields;
    match v {
      case Arr(items) =>
        ArrayOpens(float, items, ascii, t, mode, stack);
        ItemsRead(float, items, ascii, t, mode, stack);
      case Obj(fields) =>
        ObjectOpens(float, fields, ascii, t, mode, stack);
        FieldsRead(float, fields, ascii, t, mode, stack);
      case _ =>
        ScalarToken(float, v, ascii, t, mode, stack);
    }
  }

  lemma ArrayOpens(float: string -> string, items: seq<Value>, ascii: bool, t: string, mode: Mode, stack: seq<Mode>)
    requires ValueAllowed(mode)
    ensures ReadValue(Reader(Dumps(float, Arr(items), ascii) + t, mode, stack))
         == ReadItems(Reader(DumpsItems(float, items, ascii) + ([']'] + t), ArrayStart, [mode] + stack), [])
  {
    hide NextToken;
    hide ReadItems;
    hide DumpsItems;
    var inner := DumpsItems(float, items, ascii) + ([']'] + t);
    assert Dumps(float, Arr(items), ascii) + t == ['['] + inner;
    OpensBracket(inner, mode, stack);
  }

  lemma ObjectOpens(float: string -> string, fields: seq<Field>, ascii: bool, t: string, mode: Mode, stack: seq<Mode>)
    requires ValueAllowed(mode)
    ensures ReadValue(Reader(Dumps(float, Obj(fields), ascii) + t, mode, stack))
         == ReadFields(Reader(DumpsFields(float, fields, ascii) + (['}'] + t), ObjectStart, [mode] + stack), [])
  {
    hide NextToken;
    hide ReadFields;
    hide DumpsFields;
    var inner := DumpsFields(float, fields, ascii) + (['}'] + t);
    assert Dumps(float, Obj(fields), ascii) + t == ['{'] + inner;
    OpensBracket(inner, mode, stack);
  }

  lemma {:induction false} ItemsRead(float: string -> string, items: seq<Value>, ascii: bool, t: string, mode: Mode,
                                     stack: seq<Mode>)
    requires forall i :: 0 <= i < |items| ==> Plain(items[i])
    ensures ReadItems(Reader(DumpsItems(float, items, ascii) + ([']'] + t), ArrayStart, [mode] + stack), [])
         == Some((Arr(items), Reader(t, Ended(mode), stack)))
    decreases items, 1
  {
    hide NextToken;
    hide ReadValue;
    hide Dumps;
    hide More;
    var tail := [']'] + t;
    if items == [] {
      assert DumpsItems(float, items, ascii) + tail == tail;
      ClosesBracket(t, ArrayStart, mode, stack);
    } else {
      var rest := MoreItems(float, items[1..], ascii) + tail;
      var first := Dumps(float, items[0], ascii);
      assert DumpsItems(float, items, ascii) + tail == first + rest;
      MoreItemsDelimited(float, items[1..], ascii, t);
      DumpsStarts(float, items[0], ascii, rest);
      StartsMore(first + rest, ArrayStart, [mode] + stack);
      ValueReads(float, items[0], ascii, rest, ArrayStart, [mode] + stack);
      TailReads(float, items[1..], [items[0]], ascii, t, mode, stack);
      assert [items[0]] + items[1..] == items;
      assert [] + [items[0]] == [items[0]];
    }
  }

  lemma StartsMore(s: string, mode: Mode, stack: seq<Mode>)
    requires Starts(s)
    ensures More(Reader(s, mode, stack))
  {
  }

  lemma MoreItemsDelimited(float: string -> string, items: seq<Value>, ascii: bool, t: string)
    ensures Delimited(MoreItems(float, items, ascii) + ([']'] + t))
  {
  }

  lemma MoreFieldsDelimited(float: string -> string, fields: seq<Field>, ascii: bool, t: string)
    ensures Delimited(MoreFields(float, fields, ascii) + (['}'] + t))
  {
  }

  lemma {:induction false} TailReads(float: string -> string, items: seq<Value>, acc: seq<Value>, ascii: bool,
                                     t: string,
                                     mode: Mode, stack: seq<Mode>)
    requires forall i :: 0 <= i < |items| ==> Plain(items[i])
    ensures ReadItems(Reader(MoreItems(float, items, ascii) + ([']'] + t), ArrayComma, [mode] + stack), acc)
         == Some((Arr(acc + items), Reader(t, Ended(mode), stack)))
    decreases items, 0
  {
    hide NextToken;
    hide ReadValue;
    hide Dumps;
    hide More;
    var tail := [']'] + t;
    if items == [] {
      assert MoreItems(float, items, ascii) + tail == tail && acc + items == acc;
      ClosesBracket(t, ArrayComma, mode, stack);
    } else {
      var rest := MoreItems(float, items[1..], ascii) + tail;
      var first := Dumps(float, items[0], ascii);
      var r := Reader([',', ' '] + (first + rest), ArrayComma, [mode] + stack);
      assert MoreItems(float, items, ascii) + tail == [',', ' '] + (first + rest);
      MoreItemsDelimited(float, items[1..], ascii, t);
      SeparatorSkips(',', first + rest, ArrayComma, ArrayValue, [mode] + stack);
      ValueAfter(r, Reader(first + rest, ArrayValue, [mode] + stack));
      ValueReads(float, items[0], ascii, rest, ArrayValue, [mode] + stack);
      TailReads(float, items[1..], acc + [items[0]], ascii, t, mode, stack);
      assert acc + [items[0]] + items[1..] == acc + items;
    }
  }

  /** A printed field reads as its key and its value, from the reader `r` that stands before it. */
  lemma {:induction false} FieldReads(float: string -> string, f: Field, ascii: bool, rest: string, r: Reader,
                                      mode: Mode, acc: seq<Field>)
    requires Plain(f.val) && Delimited(rest) && (mode == ObjectStart || mode == ObjectKey)
    requires More(r) && NextToken(r) == NextToken(Reader(DumpsField(float, f, ascii) + rest, mode, r.stack))
    ensures ReadFields(r, acc) == ReadFields(Reader(rest, ObjectComma, r.stack), SetField(acc, f.key, f.val))
    decreases f
  {
    hide NextToken;
    hide ReadValue;
    hide Dumps;
    hide More;
    hide PyQuote;
    hide SetField;
    var val := Dumps(float, f.val, ascii);
    assert DumpsField(float, f, ascii) + rest == PyQuote(f.key, ascii) + ([':', ' '] + (val + rest));
    KeyToken(f.key, ascii, [':', ' '] + (val + rest), mode, r.stack);
    SeparatorSkips(':', val + rest, ObjectColon, ObjectValue, r.stack);
    ValueAfter(Reader([':', ' '] + (val + rest), ObjectColon, r.stack), Reader(val + rest, ObjectValue, r.stack));
    ValueReads(float, f.val, ascii, rest, ObjectValue, r.stack);
  }

  lemma {:induction false} FieldsRead(float: string -> string, fields: seq<Field>, ascii: bool, t: string, mode: Mode,
                                      stack: seq<Mode>)
    requires DistinctKeys(fields) && forall i :: 0 <= i < |fields| ==> Plain(fields[i].val)
    ensures ReadFields(Reader(DumpsFields(float, fields, ascii) + (['}'] + t), ObjectStart, [mode] + stack), [])
         == Some((Obj(fields), Reader(t, Ended(mode), stack)))
    decreases fields, 1
  {
    hide NextToken;
    hide ReadValue;
    hide DumpsField;
    hide More;
    hide SetField;
    var tail := ['}'] + t;
    if fields == [] {
      assert DumpsFields(float, fields, ascii) + tail == tail;
      ClosesBracket(t, ObjectStart, mode, stack);
    } else {
      var rest := MoreFields(float, fields[1..], ascii) + tail;
      var first := DumpsField(float, fields[0], ascii) + rest;
      assert DumpsFields(float, fields, ascii) + tail == first;
      MoreFieldsDelimited(float, fields[1..], ascii, t);
      FieldStarts(float, fields[0], ascii, rest);
      StartsMore(first, ObjectStart, [mode] + stack);
      FieldReads(float, fields[0], ascii, rest, Reader(first, ObjectStart, [mode] + stack), ObjectStart, []);
      FirstField(fields);
      FieldTailReads(float, fields[1..], [fields[0]], ascii, t, mode, stack);
    }
  }

  lemma FirstField(fields: seq<Field>)
    requires fields != []
    ensures SetField([], fields[0].key, fields[0].val) == [fields[0]] && [fields[0]] + fields[1..] == fields
  {
  }

  lemma FieldStarts(float: string -> string, f: Field, ascii: bool, rest: string)
    ensures Starts(DumpsField(float, f, ascii) + rest)
  {
  }

  lemma {:induction false} FieldTailReads(float: string -> string, fields: seq<Field>, acc: seq<Field>, ascii: bool,
                                          t: string,
                                          mode: Mode, stack: seq<Mode>)
    requires DistinctKeys(acc + fields) && forall i :: 0 <= i < |fields| ==> Plain(fields[i].val)
    ensures ReadFields(Reader(MoreFields(float, fields, ascii) + (['}'] + t), ObjectComma, [mode] + stack), acc)
         == Some((Obj(acc + fields), Reader(t, Ended(mode), stack)))
    decreases fields, 0
  {
    hide NextToken;
    hide ReadValue;
    hide DumpsField;
    hide More;
    var tail := ['}'] + t;
    if fields == [] {
      assert MoreFields(float, fields, ascii) + tail == tail && acc + fields == acc;
      ClosesBracket(t, ObjectComma, mode, stack);
    } else {
      var rest := MoreFields(float, fields[1..], ascii) + tail;
      var first := DumpsField(float, fields[0], ascii) + rest;
      var r := Reader([',', ' '] + first, ObjectComma, [mode] + stack);
      assert MoreFields(float, fields, ascii) + tail == [',', ' '] + first;
      MoreFieldsDelimited(float, fields[1..], ascii, t);
      SeparatorSkips(',', first, ObjectComma, ObjectKey, [mode] + stack);
      FieldReads(float, fields[0], ascii, rest, r, ObjectKey, acc);
      FreshKey(acc, fields);
      FieldTailReads(float, fields[1..], acc + [fields[0]], ascii, t, mode, stack);
    }
  }

  lemma FreshKey(acc: seq<Field>, fields: seq<Field>)
    requires fields != [] && DistinctKeys(acc + fields)
    ensures SetField(acc, fields[0].key, fields[0].val) == acc + [fields[0]]
    ensures acc + [fields[0]] + fields[1..] == acc + fields
  {
    var all := acc + fields;
    forall f | f in acc ensures f.key != fields[0].key {
      var i :| 0 <= i < |acc| && acc[i] == f;
      assert all[i] == f && all[|acc|] == fields[0];
    }
  }

  /** Every plain value survives printing and reading, with or without escaping to ASCII. */
  lemma RoundTrip(float: string -> string, v: Value, ascii: bool)
    requires Plain(v)
    ensures DecodeOrdered(Dumps(float, v, ascii)) == Some(v)
  {
    hide ReadValue;
    hide Dumps;
    ValueReads(float, v, ascii, "", TopValue, []);
    assert Dumps(float, v, ascii) + "" == Dumps(float, v, ascii);
  }

  // Escaping to ASCII.

  predicate Ascii(s: string) {
    forall i :: 0 <= i < |s| ==> s[i] as int < 0x80
  }

  lemma AsciiAppend(a: string, b: string)
    requires Ascii(a) && Ascii(b)
    ensures Ascii(a + b)
  {
  }

  lemma UnitAscii(n: int)
    requires 0 <= n < 0x1_0000
    ensures Ascii(Unit(n))
  {
    HexReads(n / 4096);
    HexReads(n / 256 % 16);
    HexReads(n / 16 % 16);
    HexReads(n % 16);
  }

  lemma QuotedAscii(c: char)
    ensures Ascii(Quoted(c, true))
  {
    hide Unit;
    var v := c as int;
    if v > 0xffff {
      var v2 := v - 0x1_0000;
      UnitAscii(0xd800 + v2 / 1024);
      UnitAscii(0xdc00 + v2 % 1024);
    } else if v < 0x20 || v > 0x7f {
      UnitAscii(v);
    }
  }

  lemma {:induction false} QuotedAllAscii(s: string)
    ensures Ascii(QuotedAll(s, true))
  {
    hide Quoted;
    if s != "" {
      QuotedAscii(s[0]);
      QuotedAllAscii(s[1..]);
      AsciiAppend(Quoted(s[0], true), QuotedAll(s[1..], true));
    }
  }

  /** Number literals, and what the host formats them as, are ASCII in the whole tree. */
  ghost predicate AsciiNumbers(float: string -> string, v: Value)
    decreases v
  {
    match v
    case Num(lit) => Ascii(FormatNumber(float, lit))
    case Arr(items) => forall i :: 0 <= i < |items| ==> AsciiNumbers(float, items[i])
    case Obj(fields) => forall i :: 0 <= i < |fields| ==> AsciiNumbers(float, fields[i].val)
    case _ => true
  }

  lemma Enclosed(a: string, s: string, b: string)
    requires Ascii(a) && Ascii(s) && Ascii(b)
    ensures Ascii(a + s + b)
  {
    AsciiAppend(a, s);
    AsciiAppend(a + s, b);
  }

  lemma ScalarAscii(float: string -> string, v: Value)
    requires IsScalar(v) && AsciiNumbers(float, v)
    ensures Ascii(Dumps(float, v, true))
  {
    hide QuotedAll;
    hide FormatNumber;
    if v.Str? {
      QuotedAllAscii(v.s);
    }
  }

  /** In ASCII mode nothing but ASCII is printed, whatever the strings and keys hold. */
  lemma {:induction false} DumpsAscii(float: string -> string, v: Value)
    requires AsciiNumbers(float, v)
    ensures Ascii(Dumps(float, v, true))
    decreases v
  {
    hide Ascii;
    match v {
      case Arr(items) => ItemsAscii(float, items);
      case Obj(fields) => FieldsAscii(float, fields);
      case _ => ScalarAscii(float, v);
    }
  }

  lemma {:induction false} ItemsAscii(float: string -> string, items: seq<Value>)
    requires forall i :: 0 <= i < |items| ==> AsciiNumbers(float, items[i])
    ensures Ascii(Dumps(float, Arr(items), true))
    decreases items
  {
    hide MoreItems;
    if items != [] {
      DumpsAscii(float, items[0]);
      MoreItemsAscii(float, items[1..]);
      AsciiAppend(Dumps(float, items[0], true), MoreItems(float, items[1..], true));
    }
    Enclosed("[", DumpsItems(float, items, true), "]");
  }

  lemma {:induction false} FieldsAscii(float: string -> string, fields: seq<Field>)
    requires forall i :: 0 <= i < |fields| ==> AsciiNumbers(float, fields[i].val)
    ensures Ascii(Dumps(float, Obj(fields), true))
    decreases fields
  {
    hide MoreFields;
    hide DumpsField;
    if fields != [] {
      DumpsAscii(float, fields[0].val);
      FieldAscii(float, fields[0]);
      MoreFieldsAscii(float, fields[1..]);
      AsciiAppend(DumpsField(float, fields[0], true), MoreFields(float, fields[1..], true));
    }
    Enclosed("{", DumpsFields(float, fields, true), "}");
  }

  lemma FieldAscii(float: string -> string, f: Field)
    requires Ascii(Dumps(float, f.val, true))
    ensures Ascii(DumpsField(float, f, true))
  {
    hide Dumps;
    hide QuotedAll;
    QuotedAllAscii(f.key);
  }

  lemma {:induction false} MoreItemsAscii(float: string -> string, items: seq<Value>)
    requires forall i :: 0 <= i < |items| ==> AsciiNumbers(float, items[i])
    ensures Ascii(MoreItems(float, items, true))
    decreases items
  {
    hide Dumps;
    hide AsciiNumbers;
    if items != [] {
      DumpsAscii(float, items[0]);
      MoreItemsAscii(float, items[1..]);
    }
  }

  lemma {:induction false} MoreFieldsAscii(float: string -> string, fields: seq<Field>)
    requires forall i :: 0 <= i < |fields| ==> AsciiNumbers(float, fields[i].val)
    ensures Ascii(MoreFields(float, fields, true))
    decreases fields
  {
    hide Dumps;
    hide AsciiNumbers;
    hide DumpsField;
    if fields != [] {
      DumpsAscii(float, fields[0].val);
      FieldAscii(float, fields[0]);
      MoreFieldsAscii(float, fields[1..]);
    }
  }

  /** A plain tree has ASCII numbers, so its ASCII form is ASCII. */
  lemma {:induction false} PlainAscii(float: string -> string, v: Value)
    requires Plain(v)
    ensures AsciiNumbers(float, v)
    decreases v
  {
    hide FormatNumber;
    match v {
      case Num(lit) => NumberAscii(float, lit);
      case Arr(items) =>
        forall i | 0 <= i < |items| ensures AsciiNumbers(float, items[i]) {
          PlainAscii(float, items[i]);
        }
      case Obj(fields) =>
        forall i | 0 <= i < |fields| ensures AsciiNumbers(float, fields[i].val) {
          PlainAscii(float, fields[i].val);
        }
      case _ =>
    }
  }

  lemma NumberAscii(float: string -> string, lit: string)
    requires IsInteger(lit)
    ensures FormatNumber(float, lit) == lit && Ascii(lit)
  {
    IntegerPlain(lit);
  }

  // What the printed text is, byte for byte.

  ghost predicate LowerHex(c: char) { '0' <= c <= '9' || 'a' <= c <= 'f' }

  ghost function DigitOf(c: char): int
    requires LowerHex(c)
  {
    if c <= '9' then c as int - '0' as int else c as int - 'a' as int + 10
  }

  /** A backslash, a `u` and the unit in four lower-case hexadecimal digits. */
  ghost predicate EscapesUnit(text: string, unit: int) {
    && |text| == 6 && text[0] == '\\' && text[1] == 'u' && (forall i :: 2 <= i < 6 ==> LowerHex(text[i]))
    && unit == ((DigitOf(text[2]) * 16 + DigitOf(text[3])) * 16 + DigitOf(text[4])) * 16 + DigitOf(text[5])
  }

  /** A character of its own, or two units, a high and a low one, that make it up. */
  ghost predicate EscapesPair(text: string, v: int) {
    exists hi, lo ::
      && |text| == 12 && EscapesUnit(text[..6], hi) && EscapesUnit(text[6..], lo)
      && 0xd800 <= hi < 0xdc00 <= lo < 0xe000 && v == 0x1_0000 + (hi - 0xd800) * 0x400 + (lo - 0xdc00)
  }

  /** How Python writes a character within quotes: by its short escape if it has one, else by its units if it is
      a control character or, in ASCII mode, beyond ASCII, else as it is. */
  ghost predicate Escapes(c: char, ascii: bool, text: string) {
    var v := c as int;
    if v == 0x22 then text == "\\\""
    else if v == 0x5c then text == "\\\\"
    else if v == 0x0a then text == "\\n"
    else if v == 0x0d then text == "\\r"
    else if v == 0x09 then text == "\\t"
    else if v == 0x08 then text == "\\b"
    else if v == 0x0c then text == "\\f"
    else if v < 0x20 || (ascii && 0x7f < v <= 0xffff) then EscapesUnit(text, v)
    else if ascii && v > 0xffff then EscapesPair(text, v)
    else text == [c]
  }

  ghost predicate Quotes(s: string, ascii: bool, text: string) {
    exists parts: seq<string> ::
      && |parts| == |s| && text == "\"" + Concat(parts) + "\""
      && forall i :: 0 <= i < |s| ==> Escapes(s[i], ascii, parts[i])
  }

  /** Python's separator: a comma and a space. */
  ghost function Join(parts: seq<string>): string {
    if |parts| == 0 then "" else if |parts| == 1 then parts[0] else parts[0] + ", " + Join(parts[1..])
  }

  /** How Python's `json.dumps` writes a value. */
  ghost predicate Prints(float: string -> string, v: Value, ascii: bool, text: string)
    decreases v
  {
    match v
    case Null => text == "null"
    case Bool(b) => text == if b then "true" else "false"
    case Str(s) => Quotes(s, ascii, text)
    case Num(lit) =>
      text == if '.' in lit || 'e' in lit || 'E' in lit then float(lit) else lit
    case Arr(items) =>
      exists parts: seq<string> ::
        && |parts| == |items| && text == "[" + Join(parts) + "]"
        && forall i :: 0 <= i < |items| ==> Prints(float, items[i], ascii, parts[i])
    case Obj(fields) =>
      exists parts: seq<string> ::
        && |parts| == |fields| && text == "{" + Join(parts) + "}"
        && forall i :: 0 <= i < |fields| ==> PrintsField(float, fields[i], ascii, parts[i])
  }

  ghost predicate PrintsField(float: string -> string, f: Field, ascii: bool, text: string)
    decreases f
  {
    exists key, val :: Quotes(f.key, ascii, key) && Prints(float, f.val, ascii, val) && text == key + ": " + val
  }

  lemma DigitIs(n: int)
    requires 0 <= n < 16
    ensures LowerHex(HexDigit(n)) && DigitOf(HexDigit(n)) == n
  {
    assert "0123456789abcdef"[n] == if n < 10 then ('0' as int + n) as char else ('a' as int + n - 10) as char;
  }

  lemma UnitIs(n: int)
    requires 0 <= n < 0x1_0000
    ensures EscapesUnit(Unit(n), n)
  {
    hide HexDigit;
    DigitIs(n / 4096);
    DigitIs(n / 256 % 16);
    DigitIs(n / 16 % 16);
    DigitIs(n % 16);
    assert n / 4096 * 16 + n / 256 % 16 == n / 256;
    assert n / 256 * 16 + n / 16 % 16 == n / 16;
  }

  lemma PairIs(v: int)
    requires 0xffff < v <= 0x10_ffff
    ensures EscapesPair(Unit(0xd800 + (v - 0x1_0000) / 1024) + Unit(0xdc00 + (v - 0x1_0000) % 1024), v)
  {
    hide Unit;
    hide EscapesUnit;
    var hi, lo := 0xd800 + (v - 0x1_0000) / 1024, 0xdc00 + (v - 0x1_0000) % 1024;
    var text := Unit(hi) + Unit(lo);
    UnitIs(hi);
    UnitIs(lo);
    assert text[..6] == Unit(hi) && text[6..] == Unit(lo);
  }

  lemma QuotedEscapes(c: char, ascii: bool)
    ensures Escapes(c, ascii, Quoted(c, ascii))
  {
    hide Unit;
    hide EscapesUnit;
    hide EscapesPair;
    var v := c as int;
    if v < 0x1_0000 {
      UnitIs(v);
    } else {
      PairIs(v);
    }
  }

  lemma {:induction false} QuotedParts(s: string, ascii: bool) returns (parts: seq<string>)
    ensures |parts| == |s| && QuotedAll(s, ascii) == Concat(parts)
    ensures forall i :: 0 <= i < |s| ==> Escapes(s[i], ascii, parts[i])
  {
    hide Quoted;
    hide Escapes;
    parts := [];
    if s != "" {
      var rest := QuotedParts(s[1..], ascii);
      QuotedEscapes(s[0], ascii);
      parts := [Quoted(s[0], ascii)] + rest;
      assert parts[1..] == rest;
    }
  }

  /** A printed string is its characters, escaped one by one, between quotes. */
  lemma QuoteIs(s: string, ascii: bool)
    ensures Quotes(s, ascii, PyQuote(s, ascii))
  {
    hide QuotedAll;
    hide Escapes;
    var parts := QuotedParts(s, ascii);
    assert PyQuote(s, ascii) == "\"" + Concat(parts) + "\"";
  }

  lemma {:induction false} ItemsJoin(float: string -> string, items: seq<Value>, ascii: bool, parts: seq<string>)
    requires |parts| == |items| && forall i :: 0 <= i < |items| ==> parts[i] == Dumps(float, items[i], ascii)
    ensures DumpsItems(float, items, ascii) == Join(parts)
    ensures MoreItems(float, items, ascii) == if items == [] then "" else ", " + Join(parts)
  {
    hide Dumps;
    if items != [] {
      ItemsJoin(float, items[1..], ascii, parts[1..]);
    }
  }

  lemma {:induction false} FieldsJoin(float: string -> string, fields: seq<Field>, ascii: bool, parts: seq<string>)
    requires |parts| == |fields| && forall i :: 0 <= i < |fields| ==> parts[i] == DumpsField(float, fields[i], ascii)
    ensures DumpsFields(float, fields, ascii) == Join(parts)
    ensures MoreFields(float, fields, ascii) == if fields == [] then "" else ", " + Join(parts)
  {
    hide DumpsField;
    if fields != [] {
      FieldsJoin(float, fields[1..], ascii, parts[1..]);
    }
  }

  /** The printer writes what Python writes. */
  lemma {:induction false} DumpsPrints(float: string -> string, v: Value, ascii: bool)
    ensures Prints(float, v, ascii, Dumps(float, v, ascii))
    decreases v
  {
    hide Prints;
    hide PrintsField;
    hide Dumps;
    match v {
      case Arr(items) =>
        var parts := seq(|items|, i requires 0 <= i < |items| => Dumps(float, items[i], ascii));
        forall i | 0 <= i < |items| ensures Prints(float, items[i], ascii, parts[i]) {
          DumpsPrints(float, items[i], ascii);
        }
        ArrayPrints(float, items, ascii, parts);
      case Obj(fields) =>
        var parts := seq(|fields|, i requires 0 <= i < |fields| => DumpsField(float, fields[i], ascii));
        forall i | 0 <= i < |fields| ensures PrintsField(float, fields[i], ascii, parts[i]) {
          FieldPrints(float, fields[i], ascii);
        }
        ObjectPrints(float, fields, ascii, parts);
      case _ => ScalarPrints(float, v, ascii);
    }
  }

  lemma ScalarPrints(float: string -> string, v: Value, ascii: bool)
    requires !v.Arr? && !v.Obj?
    ensures Prints(float, v, ascii, Dumps(float, v, ascii))
  {
    hide Quotes;
    hide PyQuote;
    if v.Str? {
      QuoteIs(v.s, ascii);
    }
  }

  lemma ArrayPrints(float: string -> string, items: seq<Value>, ascii: bool, parts: seq<string>)
    requires |parts| == |items| && forall i :: 0 <= i < |items| ==> parts[i] == Dumps(float, items[i], ascii)
    requires forall i :: 0 <= i < |items| ==> Prints(float, items[i], ascii, parts[i])
    ensures Prints(float, Arr(items), ascii, Dumps(float, Arr(items), ascii))
  {
    hide DumpsItems;
    hide Join;
    ItemsJoin(float, items, ascii, parts);
  }

  lemma ObjectPrints(float: string -> string, fields: seq<Field>, ascii: bool, parts: seq<string>)
    requires |parts| == |fields| && forall i :: 0 <= i < |fields| ==> parts[i] == DumpsField(float, fields[i], ascii)
    requires forall i :: 0 <= i < |fields| ==> PrintsField(float, fields[i], ascii, parts[i])
    ensures Prints(float, Obj(fields), ascii, Dumps(float, Obj(fields), ascii))
  {
    hide DumpsField;
    hide PrintsField;
    hide DumpsFields;
    hide Join;
    FieldsJoin(float, fields, ascii, parts);
  }

  lemma {:induction false} FieldPrints(float: string -> string, f: Field, ascii: bool)
    ensures PrintsField(float, f, ascii, DumpsField(float, f, ascii))
    decreases f
  {
    hide Quotes;
    hide PyQuote;
    hide Prints;
    hide Dumps;
    QuoteIs(f.key, ascii);
    DumpsPrints(float, f.val, ascii);
  }

  // The loops.

  method WriteHex(buf: string, n: int) returns (r: string)
    requires 0 <= n < 0x1_0000
    ensures r == buf + Unit(n)
  {
    hide HexDigit;
    TopDigit(n);
    r := buf + ['\\', 'u'];
    r := r + [HexDigit(n / 4096 % 16)];
    r := r + [HexDigit(n / 256 % 16)];
    r := r + [HexDigit(n / 16 % 16)];
    r := r + [HexDigit(n % 16)];
  }

  lemma TopDigit(n: int)
    requires 0 <= n < 0x1_0000
    ensures 0 <= n / 4096 < 16 && n / 4096 % 16 == n / 4096
  {
  }

  lemma {:induction false} QuotedSnoc(s: string, c: char, ascii: bool)
    ensures QuotedAll(s + [c], ascii) == QuotedAll(s, ascii) + Quoted(c, ascii)
  {
    hide Quoted;
    if s == "" {
      assert (s + [c])[1..] == "";
    } else {
      assert (s + [c])[1..] == s[1..] + [c];
      QuotedSnoc(s[1..], c, ascii);
    }
  }

  method Quote(s: string, ascii: bool) returns (buf: string)
    ensures buf == PyQuote(s, ascii) && Quotes(s, ascii, buf)
  {
    hide Quotes;
    QuoteIs(s, ascii);
    hide Unit;
    hide QuotedAll;
    buf := ['"'];
    NothingQuoted(s, ascii);
    for i := 0 to |s|
      invariant buf == ['"'] + QuotedAll(s[..i], ascii)
    {
      var c := s[i];
      var v := c as int;
      assert s[..i + 1] == s[..i] + [c];
      QuotedSnoc(s[..i], c, ascii);
      if c == '"' || c == '\\' {
        buf := buf + ['\\', c];
      } else if c == '\n' {
        buf := buf + ['\\', 'n'];
      } else if c == '\r' {
        buf := buf + ['\\', 'r'];
      } else if c == '\t' {
        buf := buf + ['\\', 't'];
      } else if v == 8 {
        buf := buf + ['\\', 'b'];
      } else if v == 12 {
        buf := buf + ['\\', 'f'];
      } else if v < 0x20 {
        buf := WriteHex(buf, v);
      } else if ascii && v > 0x7f {
        if v > 0xffff {
          var v2 := v - 0x1_0000;
          buf := WriteHex(buf, 0xd800 + v2 / 1024);
          buf := WriteHex(buf, 0xdc00 + v2 % 1024);
        } else {
          buf := WriteHex(buf, v);
        }
      } else {
        buf := buf + [c];
      }
    }
    assert s[..|s|] == s;
    buf := buf + ['"'];
  }

  lemma NothingQuoted(s: string, ascii: bool)
    ensures QuotedAll(s[..0], ascii) == ""
  {
  }

  lemma {:induction false} MoreItemsSnoc(float: string -> string, items: seq<Value>, v: Value, ascii: bool)
    ensures MoreItems(float, items + [v], ascii) == MoreItems(float, items, ascii) + ", " + Dumps(float, v, ascii)
    decreases items
  {
    hide Dumps;
    if items == [] {
      assert (items + [v])[1..] == [];
    } else {
      assert (items + [v])[1..] == items[1..] + [v];
      MoreItemsSnoc(float, items[1..], v, ascii);
    }
  }

  lemma DumpsItemsSnoc(float: string -> string, items: seq<Value>, i: nat, ascii: bool)
    requires i < |items|
    ensures DumpsItems(float, items[..i + 1], ascii)
         == DumpsItems(float, items[..i], ascii) + (if i > 0 then ", " else "") + Dumps(float, items[i], ascii)
  {
    hide Dumps;
    if i == 0 {
      assert items[..1][1..] == [];
    } else {
      assert items[..i + 1][1..] == items[1..i] + [items[i]] && items[..i][1..] == items[1..i];
      MoreItemsSnoc(float, items[1..i], items[i], ascii);
    }
  }

  lemma {:induction false} MoreFieldsSnoc(float: string -> string, fields: seq<Field>, f: Field, ascii: bool)
    ensures MoreFields(float, fields + [f], ascii)
         == MoreFields(float, fields, ascii) + ", " + DumpsField(float, f, ascii)
    decreases fields
  {
    hide DumpsField;
    if fields == [] {
      assert (fields + [f])[1..] == [];
    } else {
      assert (fields + [f])[1..] == fields[1..] + [f];
      MoreFieldsSnoc(float, fields[1..], f, ascii);
    }
  }

  lemma DumpsFieldsSnoc(float: string -> string, fields: seq<Field>, i: nat, ascii: bool)
    requires i < |fields|
    ensures DumpsFields(float, fields[..i + 1], ascii)
         == DumpsFields(float, fields[..i], ascii) + (if i > 0 then ", " else "") + DumpsField(float, fields[i], ascii)
  {
    hide DumpsField;
    if i == 0 {
      assert fields[..1][1..] == [];
    } else {
      assert fields[..i + 1][1..] == fields[1..i] + [fields[i]] && fields[..i][1..] == fields[1..i];
      MoreFieldsSnoc(float, fields[1..i], fields[i], ascii);
    }
  }

  lemma NothingDumped(float: string -> string, items: seq<Value>, fields: seq<Field>, ascii: bool)
    ensures DumpsItems(float, items[..0], ascii) == "" && DumpsFields(float, fields[..0], ascii) == ""
  {
  }

  /** Appends a value to the text being built. */
  method WriteValue(float: string -> string, buf: string, v: Value, ascii: bool) returns (r: string)
    ensures r == buf + Dumps(float, v, ascii)
    decreases v
  {
    hide DumpsItems;
    hide DumpsFields;
    hide PyQuote;
    hide FormatNumber;
    match v {
      case Null => r := buf + "null";
      case Bool(b) =>
        if b {
          r := buf + "true";
        } else {
          r := buf + "false";
        }
      case Str(s) =>
        var q := Quote(s, ascii);
        r := buf + q;
      case Num(lit) => r := buf + FormatNumber(float, lit);
      case Arr(items) =>
        r := WriteItems(float, buf + "[", items, ascii);
        r := r + "]";
      case Obj(fields) =>
        r := WriteFields(float, buf + "{", fields, ascii);
        r := r + "}";
    }
  }

  /** Serializes a value the way Python does. */
  method Serialize(float: string -> string, v: Value, ascii: bool) returns (text: string)
    ensures text == Dumps(float, v, ascii) && Prints(float, v, ascii, text)
  {
    hide Prints;
    text := WriteValue(float, "", v, ascii);
    DumpsPrints(float, v, ascii);
  }

  method WriteItems(float: string -> string, buf: string, items: seq<Value>, ascii: bool) returns (r: string)
    ensures r == buf + DumpsItems(float, items, ascii)
    decreases items
  {
    hide Dumps;
    hide DumpsItems;
    r := buf;
    NothingDumped(float, items, [], ascii);
    for i := 0 to |items|
      invariant r == buf + DumpsItems(float, items[..i], ascii)
    {
      DumpsItemsSnoc(float, items, i, ascii);
      if i > 0 {
        r := r + ", ";
      }
      r := WriteValue(float, r, items[i], ascii);
    }
    assert items[..|items|] == items;
  }

  lemma FieldText(float: string -> string, before: string, f: Field, ascii: bool)
    ensures before + PyQuote(f.key, ascii) + ": " + Dumps(float, f.val, ascii) == before + DumpsField(float, f, ascii)
  {
    hide PyQuote;
    hide Dumps;
  }

  method WriteFields(float: string -> string, buf: string, fields: seq<Field>, ascii: bool) returns (r: string)
    ensures r == buf + DumpsFields(float, fields, ascii)
    decreases fields
  {
    hide Dumps;
    hide DumpsField;
    hide DumpsFields;
    hide PyQuote;
    hide Quotes;
    r := buf;
    NothingDumped(float, [], fields, ascii);
    for i := 0 to |fields|
      invariant r == buf + DumpsFields(float, fields[..i], ascii)
    {
      DumpsFieldsSnoc(float, fields, i, ascii);
      if i > 0 {
        r := r + ", ";
      }
      ghost var before := r;
      var q := Quote(fields[i].key, ascii);
      r := r + q;
      r := r + ": ";
      r := WriteValue(float, r, fields[i].val, ascii);
      FieldText(float, before, fields[i], ascii);
    }
    assert fields[..|fields|] == fields;
  }

  /** Overwrites the key where it stands, or appends it. */
  method Set(fields: seq<Field>, k: string, v: Value) returns (r: seq<Field>)
    ensures r == SetField(fields, k, v)
    ensures forall i :: 0 <= i < |fields| && fields[i].key == k && (forall j :: 0 <= j < i ==> fields[j].key != k) ==>
      r == fields[i := Field(k, v)]
    ensures (forall i :: 0 <= i < |fields| ==> fields[i].key != k) ==> r == fields + [Field(k, v)]
  {
    for i := 0 to |fields|
      invariant forall j :: 0 <= j < i ==> fields[j].key != k
    {
      if fields[i].key == k {
        SetsAt(fields, k, v, i);
        return fields[i := Field(k, v)];
      }
    }
    r := fields + [Field(k, v)];
  }

  lemma {:induction false} SetsAt(fields: seq<Field>, k: string, v: Value, i: nat)
    requires i < |fields| && fields[i].key == k && forall j :: 0 <= j < i ==> fields[j].key != k
    ensures SetField(fields, k, v) == fields[i := Field(k, v)]
  {
    if i == 0 {
      assert fields[0 := Field(k, v)] == [Field(k, v)] + fields[1..];
    } else {
      SetsAt(fields[1..], k, v, i - 1);
      assert fields[i := Field(k, v)] == [fields[0]] + fields[1..][i - 1 := Field(k, v)];
    }
  }

  /** Reads one value by tokens. */
  method DecodeValue(r: Reader) returns (o: Option<(Value, Reader)>)
    ensures o == ReadValue(r)
    decreases |r.rest|
  {
    hide NextToken;
    hide SetField;
    hide More;
    match NextToken(r) {
      case None => return None;
      case Some((tok, start)) =>
        var cur := start;
        match tok {
          case OpenObj =>
            var fields: seq<Field> := [];
            while More(cur)
              invariant |cur.rest| <= |start.rest| && ReadFields(start, []) == ReadFields(cur, fields)
              decreases |cur.rest|
            {
              match NextToken(cur) {
                case Some((Text(key), r1)) =>
                  var val := DecodeValue(r1);
                  if val.None? {
                    return None;
                  }
                  fields := Set(fields, key, val.value.0);
                  cur := val.value.1;
                case _ => return None;
              }
            }
            match NextToken(cur) {
              case Some((_, r1)) => return Some((Obj(fields), r1));
              case None => return None;
            }
          case OpenArr =>
            var items: seq<Value> := [];
            while More(cur)
              invariant |cur.rest| <= |start.rest| && ReadItems(start, []) == ReadItems(cur, items)
              decreases |cur.rest|
            {
              var val := DecodeValue(cur);
              if val.None? {
                return None;
              }
              items := items + [val.value.0];
              cur := val.value.1;
            }
            match NextToken(cur) {
              case Some((_, r1)) => return Some((Arr(items), r1));
              case None => return None;
            }
          case Text(s) => return Some((Str(s), cur));
          case Number(lit) => return Some((Num(lit), cur));
          case Boolean(b) => return Some((Bool(b), cur));
          case Nil => return Some((Null, cur));
          case _ => return None;
        }
    }
  }
}
