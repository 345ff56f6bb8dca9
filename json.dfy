/** The subset of JSON (RFC 8259) that this model reads and writes: objects,
    arrays, strings, integers, booleans and null, with the
    insignificant white space of section 2 of RFC 8259.

    The parser works on bytes and returns, on success, the value and the
    bytes that follow it; on failure, the suffix of the input at which it
    got stuck, so that the position of a syntax error can be reported. */
module Json {
  import opened Results

  newtype byte = x: int | 0 <= x < 256

  datatype Value =
    | Null
    | Bool(b: bool)
    | Number(n: int)
    | Str(s: string)
    | Array(items: seq<Value>)
    | Object(members: seq<(string, Value)>)

  datatype ParseResult<T> =
    | Parsed(value: T, rest: seq<byte>)
    | Stuck(at: seq<byte>)

  // The structural and literal bytes of the grammar.
  const TAB: byte := 9
  const LF: byte := 10
  const CR: byte := 13
  const SPACE: byte := 32
  const QUOTE: byte := 34
  const COMMA: byte := 44
  const MINUS: byte := 45
  const SLASH: byte := 47
  const ZERO: byte := 48
  const NINE: byte := 57
  const COLON: byte := 58
  const LBRACKET: byte := 91
  const BACKSLASH: byte := 92
  const RBRACKET: byte := 93
  const LBRACE: byte := 123
  const RBRACE: byte := 125
  const TRUE: seq<byte> := [116, 114, 117, 101]
  const FALSE: seq<byte> := [102, 97, 108, 115, 101]
  const NULL: seq<byte> := [110, 117, 108, 108]

  predicate IsWhitespace(b: byte) {
    b == SPACE || b == TAB || b == LF || b == CR
  }

  predicate IsDigit(b: byte) {
    ZERO <= b <= NINE
  }

  /** Drops leading white space; what is left is a suffix that does not start with white space. */
  function SkipWhitespace(s: seq<byte>): (r: seq<byte>)
    ensures |r| <= |s|
    ensures r == [] || !IsWhitespace(r[0])
    ensures s != [] && !IsWhitespace(s[0]) ==> r == s
  {
    if s != [] && IsWhitespace(s[0]) then SkipWhitespace(s[1..]) else s
  }

  // ---------------------------------------------------------------------
  // Numbers (section 6 of RFC 8259, integer part only)

  /** Length of the run of decimal digits at the front of `s`. */
  function DigitRun(s: seq<byte>): (k: nat)
    ensures k <= |s|
    ensures forall i :: 0 <= i < k ==> IsDigit(s[i])
    ensures k == |s| || !IsDigit(s[k])
  {
    if s != [] && IsDigit(s[0]) then 1 + DigitRun(s[1..]) else 0
  }

  /** The number a string of decimal digits denotes, most significant digit first. */
  function DigitsValue(ds: seq<byte>): nat
    requires forall i :: 0 <= i < |ds| ==> IsDigit(ds[i])
  {
    if ds == [] then 0
    else
      var last := ds[|ds| - 1];
      assert IsDigit(last);
      DigitsValue(ds[..|ds| - 1]) * 10 + (last - ZERO) as int
  }

  /** A natural number in decimal notation, without leading zeros. */
  function NatText(n: nat): (r: seq<byte>)
    ensures |r| >= 1
    ensures forall i :: 0 <= i < |r| ==> IsDigit(r[i])
  {
    if n < 10 then [ZERO + n as byte] else NatText(n / 10) + [ZERO + (n % 10) as byte]
  }

  /** The grammar's `int`: a zero, or digits without a leading zero. */
  function ParseNat(s: seq<byte>): (r: ParseResult<int>)
    requires s != [] && IsDigit(s[0])
    ensures r.Parsed? && r.value >= 0 && |r.rest| < |s|
  {
    if s[0] == ZERO then Parsed(0, s[1..])
    else
      var k := DigitRun(s);
      Parsed(DigitsValue(s[..k]), s[k..])
  }

  function ParseNumber(s: seq<byte>): (r: ParseResult<int>)
    requires s != [] && (s[0] == MINUS || IsDigit(s[0]))
    ensures r.Parsed? ==> |r.rest| < |s|
    ensures r.Stuck? ==> |r.at| <= |s|
  {
    if s[0] == MINUS then
      if |s| > 1 && IsDigit(s[1]) then
        var p := ParseNat(s[1..]);
        Parsed(-p.value, p.rest)
      else Stuck(s[1..])
    else ParseNat(s)
  }

  // ---------------------------------------------------------------------
  // Strings (section 7 of RFC 8259; \u escapes are not part of this model)

  /** The character a two-byte escape sequence `\b` stands for. */
  function Unescape(b: byte): Option<char> {
    if b == QUOTE then Some('"')
    else if b == BACKSLASH then Some('\\')
    else if b == SLASH then Some('/')
    else if b == 98 then Some(8 as char)
    else if b == 102 then Some(12 as char)
    else if b == 110 then Some('\n')
    else if b == 114 then Some('\r')
    else if b == 116 then Some('\t')
    else None
  }

  /** Characters of a string body up to and including the closing quote. */
  function ParseChars(s: seq<byte>): (r: ParseResult<string>)
    ensures r.Parsed? ==> |r.rest| < |s|
    ensures r.Parsed? ==> IsText(r.value)
    ensures r.Stuck? ==> |r.at| <= |s|
  {
    if s == [] then Stuck(s)
    else if s[0] == QUOTE then Parsed([], s[1..])
    else if s[0] == BACKSLASH then
      if |s| < 2 then Stuck(s[1..])
      else match Unescape(s[1])
        case None => Stuck(s[1..])
        case Some(c) =>
          match ParseChars(s[2..])
          case Parsed(cs, rest) => Parsed([c] + cs, rest)
          case Stuck(at) => Stuck(at)
    else if s[0] < SPACE then Stuck(s)
    else
      match ParseChars(s[1..])
      case Parsed(cs, rest) => Parsed([s[0] as int as char] + cs, rest)
      case Stuck(at) => Stuck(at)
  }

  /** A character the serializer can write: an 8-bit character that is not a
      control character, or a control character with a two-byte escape. */
  predicate IsTextChar(c: char) {
    (c as int < 256 && c as int >= 32) || c == 8 as char || c == 12 as char || c == '\n' || c == '\r' || c == '\t'
  }

  predicate IsText(s: string) {
    forall i :: 0 <= i < |s| ==> IsTextChar(s[i])
  }

  function EscapeChar(c: char): (r: seq<byte>)
    requires IsTextChar(c)
  {
    if c == '"' then [BACKSLASH, QUOTE]
    else if c == '\\' then [BACKSLASH, BACKSLASH]
    else if c == 8 as char then [BACKSLASH, 98]
    else if c == 12 as char then [BACKSLASH, 102]
    else if c == '\n' then [BACKSLASH, 110]
    else if c == '\r' then [BACKSLASH, 114]
    else if c == '\t' then [BACKSLASH, 116]
    else [c as int as byte]
  }

  function Escape(s: string): seq<byte>
    requires IsText(s)
  {
    if s == [] then [] else EscapeChar(s[0]) + Escape(s[1..])
  }

  function StringText(s: string): seq<byte>
    requires IsText(s)
  {
    [QUOTE] + Escape(s) + [QUOTE]
  }

  // ---------------------------------------------------------------------
  // Values, arrays and objects

  /** The literal `true`, `false` or `null` at the front of `t`, and its length. */
  function Literal(t: seq<byte>): (r: Option<(Value, nat)>)
    ensures r.Some? ==> 0 < r.value.1 <= |t|
  {
    if |t| >= 4 && t[0] == 116 && t[1] == 114 && t[2] == 117 && t[3] == 101 then Some((Bool(true), 4))
    else if |t| >= 5 && t[0] == 102 && t[1] == 97 && t[2] == 108 && t[3] == 115 && t[4] == 101 then Some((Bool(false), 5))
    else if |t| >= 4 && t[0] == 110 && t[1] == 117 && t[2] == 108 && t[3] == 108 then Some((Null, 4))
    else None
  }

  /** One JSON value, preceded by optional white space. */
  function ParseValue(s: seq<byte>): (r: ParseResult<Value>)
    ensures r.Parsed? ==> |r.rest| < |s| && Writable(r.value)
    ensures r.Stuck? ==> |r.at| <= |s|
    decreases |s|, 0
  {
    var t := SkipWhitespace(s);
    if t == [] then Stuck(t)
    else if t[0] == LBRACE then ParseObject(t[1..])
    else if t[0] == LBRACKET then ParseArray(t[1..])
    else if t[0] == QUOTE then
      match ParseChars(t[1..])
      case Parsed(cs, rest) => Parsed(Str(cs), rest)
      case Stuck(at) => Stuck(at)
    else if t[0] == MINUS || IsDigit(t[0]) then
      match ParseNumber(t)
      case Parsed(n, rest) => Parsed(Number(n), rest)
      case Stuck(at) => Stuck(at)
    else
      match Literal(t)
      case Some((v, k)) => Parsed(v, t[k..])
      case None => Stuck(t)
  }

  /** An array after its opening bracket. */
  function ParseArray(s: seq<byte>): (r: ParseResult<Value>)
    ensures r.Parsed? ==> r.value.Array? && |r.rest| < |s| && Writable(r.value)
    ensures r.Stuck? ==> |r.at| <= |s|
    decreases |s|, 2
  {
    var t := SkipWhitespace(s);
    if t != [] && t[0] == RBRACKET then Parsed(Array([]), t[1..])
    else
      match ParseItems(t)
      case Parsed(vs, rest) => Parsed(Array(vs), rest)
      case Stuck(at) => Stuck(at)
  }

  /** One or more comma-separated values and the closing bracket. */
  function ParseItems(s: seq<byte>): (r: ParseResult<seq<Value>>)
    ensures r.Parsed? ==> |r.rest| < |s|
    ensures r.Parsed? ==> forall i :: 0 <= i < |r.value| ==> Writable(r.value[i])
    ensures r.Stuck? ==> |r.at| <= |s|
    decreases |s|, 1
  {
    match ParseValue(s)
    case Stuck(at) => Stuck(at)
    case Parsed(v, rest) =>
      var u := SkipWhitespace(rest);
      if u == [] then Stuck(u)
      else if u[0] == RBRACKET then Parsed([v], u[1..])
      else if u[0] == COMMA then
        match ParseItems(u[1..])
        case Parsed(vs, rest') => Parsed([v] + vs, rest')
        case Stuck(at) => Stuck(at)
      else Stuck(u)
  }

  /** An object after its opening brace. */
  function ParseObject(s: seq<byte>): (r: ParseResult<Value>)
    ensures r.Parsed? ==> r.value.Object? && |r.rest| < |s| && Writable(r.value)
    ensures r.Stuck? ==> |r.at| <= |s|
    decreases |s|, 2
  {
    var t := SkipWhitespace(s);
    if t != [] && t[0] == RBRACE then Parsed(Object([]), t[1..])
    else
      match ParseMembers(t)
      case Parsed(ms, rest) => Parsed(Object(ms), rest)
      case Stuck(at) => Stuck(at)
  }

  /** One or more comma-separated `"name": value` members and the closing brace. */
  function ParseMembers(s: seq<byte>): (r: ParseResult<seq<(string, Value)>>)
    ensures r.Parsed? ==> |r.rest| < |s|
    ensures r.Parsed? ==> forall i :: 0 <= i < |r.value| ==> IsText(r.value[i].0) && Writable(r.value[i].1)
    ensures r.Stuck? ==> |r.at| <= |s|
    decreases |s|, 1
  {
    var t := SkipWhitespace(s);
    if t == [] || t[0] != QUOTE then Stuck(t)
    else
      match ParseChars(t[1..])
      case Stuck(at) => Stuck(at)
      case Parsed(key, afterKey) =>
        var u := SkipWhitespace(afterKey);
        if u == [] || u[0] != COLON then Stuck(u)
        else
          match ParseValue(u[1..])
          case Stuck(at) => Stuck(at)
          case Parsed(v, afterValue) =>
            var w := SkipWhitespace(afterValue);
            if w == [] then Stuck(w)
            else if w[0] == RBRACE then Parsed([(key, v)], w[1..])
            else if w[0] == COMMA then
              match ParseMembers(w[1..])
              case Parsed(ms, rest) => Parsed([(key, v)] + ms, rest)
              case Stuck(at) => Stuck(at)
            else Stuck(w)
  }

  // ---------------------------------------------------------------------
  // The serializer: compact, members in the order given

  /** Values whose every string (member names included) the serializer can write. */
  predicate Writable(v: Value) {
    match v
    case Str(s) => IsText(s)
    case Array(vs) => forall i :: 0 <= i < |vs| ==> Writable(vs[i])
    case Object(ms) => forall i :: 0 <= i < |ms| ==> IsText(ms[i].0) && Writable(ms[i].1)
    case _ => true
  }

  function MemberText(name: string, value: seq<byte>): seq<byte>
    requires IsText(name)
  {
    StringText(name) + [COLON] + value
  }

  function Serialize(v: Value): seq<byte>
    requires Writable(v)
    decreases v, 1
  {
    match v
    case Null => NULL
    case Bool(b) => if b then TRUE else FALSE
    case Number(n) => if n < 0 then [MINUS] + NatText(-n) else NatText(n)
    case Str(s) => StringText(s)
    case Array(vs) => [LBRACKET] + ItemsText(v, 0) + [RBRACKET]
    case Object(ms) => [LBRACE] + MembersText(v, 0) + [RBRACE]
  }

  /** The items of array `v` from the `i`-th on, each but the first preceded by a comma. */
  function ItemsText(v: Value, i: nat): seq<byte>
    requires v.Array? && Writable(v) && i <= |v.items|
    decreases v, 0, |v.items| - i
  {
    if i == |v.items| then []
    else (if i == 0 then [] else [COMMA]) + Serialize(v.items[i]) + ItemsText(v, i + 1)
  }

  /** The members of object `v` from the `i`-th on, each but the first preceded by a comma. */
  function MembersText(v: Value, i: nat): seq<byte>
    requires v.Object? && Writable(v) && i <= |v.members|
    decreases v, 0, |v.members| - i
  {
    if i == |v.members| then []
    else (if i == 0 then [] else [COMMA]) + MemberText(v.members[i].0, Serialize(v.members[i].1)) + MembersText(v, i + 1)
  }

  /** A whole document: one value, with only white space after it. */
  function ParseDocument(s: seq<byte>): (r: ParseResult<Value>)
    ensures r.Parsed? ==> r.rest == [] && Writable(r.value)
    ensures r.Stuck? ==> |r.at| <= |s|
  {
    match ParseValue(s)
    case Stuck(at) => Stuck(at)
    case Parsed(v, rest) =>
      var t := SkipWhitespace(rest);
      if t == [] then Parsed(v, []) else Stuck(t)
  }

  // ---------------------------------------------------------------------
  // Round trip: the parser reads back what the serializer writes

  lemma {:induction false} NatTextValue(n: nat)
    ensures DigitsValue(NatText(n)) == n
    ensures n > 0 ==> NatText(n)[0] != ZERO
  {
    if n >= 10 {
      NatTextValue(n / 10);
      var t := NatText(n);
      assert t[..|t| - 1] == NatText(n / 10);
    }
  }

  lemma {:induction false} DigitRunPrefix(ds: seq<byte>, rest: seq<byte>)
    requires forall i :: 0 <= i < |ds| ==> IsDigit(ds[i])
    requires rest == [] || !IsDigit(rest[0])
    ensures DigitRun(ds + rest) == |ds|
  {
    if ds != [] {
      assert (ds + rest)[1..] == ds[1..] + rest;
      DigitRunPrefix(ds[1..], rest);
    } else {
      assert ds + rest == rest;
    }
  }

  lemma {:induction false} NatRoundTrip(n: nat, rest: seq<byte>)
    requires rest == [] || !IsDigit(rest[0])
    ensures ParseNat(NatText(n) + rest) == Parsed(n, rest)
  {
    var t := NatText(n);
    var s := t + rest;
    NatTextValue(n);
    if n > 0 {
      DigitRunPrefix(t, rest);
      assert s[..|t|] == t;
      assert s[|t|..] == rest;
    } else {
      assert t == [ZERO];
      assert s[1..] == rest;
    }
  }

  lemma {:induction false} NumberRoundTrip(n: int, rest: seq<byte>)
    requires rest == [] || !IsDigit(rest[0])
    ensures var t := if n < 0 then [MINUS] + NatText(-n) else NatText(n);
            ParseNumber(t + rest) == Parsed(n, rest)
  {
    if n < 0 {
      var s := [MINUS] + NatText(-n) + rest;
      assert s[1..] == NatText(-n) + rest;
      NatRoundTrip(-n, rest);
    } else {
      NatRoundTrip(n, rest);
    }
  }

  /** Reading one written character and then whatever follows it. */
  lemma {:induction false} EscapeCharStep(c: char, t: seq<byte>)
    requires IsTextChar(c)
    ensures ParseChars(EscapeChar(c) + t) ==
            match ParseChars(t)
            case Parsed(cs, rest) => Parsed([c] + cs, rest)
            case Stuck(at) => Stuck(at)
  {
    var s := EscapeChar(c) + t;
    if |EscapeChar(c)| == 2 {
      assert s[2..] == t;
    } else {
      assert s[1..] == t;
    }
  }

  lemma {:induction false} CharsRoundTrip(cs: string, rest: seq<byte>)
    requires IsText(cs)
    ensures ParseChars(Escape(cs) + [QUOTE] + rest) == Parsed(cs, rest)
  {
    if cs == [] {
      assert Escape(cs) + [QUOTE] + rest == [QUOTE] + rest;
    } else {
      var t := Escape(cs[1..]) + [QUOTE] + rest;
      assert Escape(cs) + [QUOTE] + rest == EscapeChar(cs[0]) + t;
      assert IsText(cs[1..]);
      CharsRoundTrip(cs[1..], rest);
      EscapeCharStep(cs[0], t);
      assert cs == [cs[0]] + cs[1..];
    }
  }

  lemma {:induction false} StringRoundTrip(cs: string, rest: seq<byte>)
    requires IsText(cs)
    ensures var s := StringText(cs) + rest;
            s[0] == QUOTE && ParseChars(s[1..]) == Parsed(cs, rest)
  {
    var s := StringText(cs) + rest;
    assert s[1..] == Escape(cs) + [QUOTE] + rest;
    CharsRoundTrip(cs, rest);
  }

  /** Everything the serializer writes starts with a byte that is not white space. */
  lemma {:induction false} SerializeStart(v: Value)
    requires Writable(v)
    ensures |Serialize(v)| > 0 && !IsWhitespace(Serialize(v)[0]) && Serialize(v)[0] != RBRACKET
  {
    match v
    case Number(n) =>
      if n >= 0 { assert IsDigit(NatText(n)[0]); }
    case _ =>
  }

  /** How ParseValue dispatches on the first byte of input without leading white space. */
  lemma {:induction false} ParseValueDispatch(s: seq<byte>)
    requires s != [] && !IsWhitespace(s[0])
    ensures s[0] == LBRACE ==> ParseValue(s) == ParseObject(s[1..])
    ensures s[0] == LBRACKET ==> ParseValue(s) == ParseArray(s[1..])
  {
  }

  lemma {:induction false} ValueRoundTrip(v: Value, rest: seq<byte>)
    requires Writable(v)
    requires rest == [] || !IsDigit(rest[0])
    ensures ParseValue(Serialize(v) + rest) == Parsed(v, rest)
    decreases v, 2
  {
    match v
    case Array(_) => ArrayValueRoundTrip(v, rest);
    case Object(_) => ObjectValueRoundTrip(v, rest);
    case Str(cs) => StringValueRoundTrip(cs, rest);
    case Number(n) => NumberValueRoundTrip(n, rest);
    case _ => LiteralRoundTrip(v, rest);
  }

  lemma {:induction false} LiteralRoundTrip(v: Value, rest: seq<byte>)
    requires v.Null? || v.Bool?
    ensures ParseValue(Serialize(v) + rest) == Parsed(v, rest)
  {
    var s := Serialize(v) + rest;
    assert SkipWhitespace(s) == s;
    if v.Null? {
      assert s[..4] == NULL && s[4..] == rest;
    } else if v.b {
      assert s[..4] == TRUE && s[4..] == rest;
    } else {
      assert s[..5] == FALSE && s[5..] == rest;
    }
  }

  lemma {:induction false} NumberValueRoundTrip(n: int, rest: seq<byte>)
    requires rest == [] || !IsDigit(rest[0])
    ensures ParseValue(Serialize(Number(n)) + rest) == Parsed(Number(n), rest)
  {
    var t := Serialize(Number(n));
    NumberRoundTrip(n, rest);
    assert (t + rest)[0] == t[0];
    NumberValueFrom(t + rest, n, rest);
  }

  lemma {:induction false} NumberValueFrom(s: seq<byte>, n: int, rest: seq<byte>)
    requires s != [] && (s[0] == MINUS || IsDigit(s[0]))
    requires ParseNumber(s) == Parsed(n, rest)
    ensures ParseValue(s) == Parsed(Number(n), rest)
  {
  }

  lemma {:induction false} StringValueRoundTrip(cs: string, rest: seq<byte>)
    requires IsText(cs)
    ensures ParseValue(Serialize(Str(cs)) + rest) == Parsed(Str(cs), rest)
  {
    var s := Serialize(Str(cs)) + rest;
    assert SkipWhitespace(s) == s;
    StringRoundTrip(cs, rest);
  }

  lemma {:induction false} ArrayValueRoundTrip(v: Value, rest: seq<byte>)
    requires v.Array? && Writable(v)
    ensures ParseValue(Serialize(v) + rest) == Parsed(v, rest)
    decreases v, 1
  {
    var s := Serialize(v) + rest;
    assert s == [LBRACKET] + (ItemsText(v, 0) + [RBRACKET] + rest);
    ArrayRoundTrip(v, rest);
    ParseValueDispatch(s);
  }

  lemma {:induction false} ObjectValueRoundTrip(v: Value, rest: seq<byte>)
    requires v.Object? && Writable(v)
    ensures ParseValue(Serialize(v) + rest) == Parsed(v, rest)
    decreases v, 1
  {
    var s := Serialize(v) + rest;
    assert s == [LBRACE] + (MembersText(v, 0) + [RBRACE] + rest);
    ObjectRoundTrip(v, rest);
    ParseValueDispatch(s);
  }

  lemma {:induction false} ArrayRoundTrip(v: Value, rest: seq<byte>)
    requires v.Array? && Writable(v)
    ensures ParseArray(ItemsText(v, 0) + [RBRACKET] + rest) == Parsed(v, rest)
    decreases v, 0, |v.items| + 1
  {
    if v.items == [] {
      assert ItemsText(v, 0) + [RBRACKET] + rest == [RBRACKET] + rest;
    } else {
      ItemsTextFirst(v);
      var i := 0;
      ItemsRoundTrip(v, i, rest);
      assert v.items[i..] == v.items;
      SerializeStart(v.items[i]);
      ArrayFromItems(Serialize(v.items[i]), ItemsText(v, i), ItemsText(v, i + 1), v.items, rest);
    }
  }

  /** The items text of a non-empty array is its first item followed by the others. */
  lemma {:induction false} ItemsTextFirst(v: Value)
    requires v.Array? && Writable(v) && v.items != []
    ensures ItemsText(v, 0) == Serialize(v.items[0]) + ItemsText(v, 1)
  {
  }

  /** An array text whose items text `m0` is a first item `f` and a remainder `m1` that read as `vs`. */
  lemma {:induction false} ArrayFromItems(f: seq<byte>, m0: seq<byte>, m1: seq<byte>, vs: seq<Value>, rest: seq<byte>)
    requires f != [] && !IsWhitespace(f[0]) && f[0] != RBRACKET && m0 == f + m1
    requires ParseItems(f + (m1 + [RBRACKET] + rest)) == Parsed(vs, rest)
    ensures ParseArray(m0 + [RBRACKET] + rest) == Parsed(Array(vs), rest)
  {
    RegroupFirst(m0, f, m1, RBRACKET, rest);
  }

  lemma {:induction false} ObjectRoundTrip(v: Value, rest: seq<byte>)
    requires v.Object? && Writable(v)
    ensures ParseObject(MembersText(v, 0) + [RBRACE] + rest) == Parsed(v, rest)
    decreases v, 0, |v.members| + 1
  {
    if v.members == [] {
      assert MembersText(v, 0) + [RBRACE] + rest == [RBRACE] + rest;
    } else {
      MembersTextFirst(v);
      var i := 0;
      MembersRoundTrip(v, i, rest);
      assert v.members[i..] == v.members;
      MemberTextStart(v.members[i].0, Serialize(v.members[i].1));
      ObjectFromMembers(MemberText(v.members[i].0, Serialize(v.members[i].1)), MembersText(v, i), MembersText(v, i + 1), v.members, rest);
    }
  }

  /** The members text of a non-empty object is its first member followed by the others. */
  lemma {:induction false} MembersTextFirst(v: Value)
    requires v.Object? && Writable(v) && v.members != []
    ensures MembersText(v, 0) == MemberText(v.members[0].0, Serialize(v.members[0].1)) + MembersText(v, 1)
  {
  }

  /** An object text whose members text `m0` is a first member `f` and a remainder `m1` that read as `ms`. */
  lemma {:induction false} ObjectFromMembers(f: seq<byte>, m0: seq<byte>, m1: seq<byte>, ms: seq<(string, Value)>, rest: seq<byte>)
    requires f != [] && f[0] == QUOTE && m0 == f + m1
    requires ParseMembers(f + (m1 + [RBRACE] + rest)) == Parsed(ms, rest)
    ensures ParseObject(m0 + [RBRACE] + rest) == Parsed(Object(ms), rest)
  {
    RegroupFirst(m0, f, m1, RBRACE, rest);
    ObjectStep(m0 + [RBRACE] + rest, ms, rest);
  }

  /** A list text `m` made of `lead`, `a` and `b`, followed by a closing byte and `rest`. */
  lemma {:induction false} Regroup(lead: seq<byte>, m: seq<byte>, a: seq<byte>, b: seq<byte>, close: byte, rest: seq<byte>)
    requires m == lead + a + b
    ensures m + [close] + rest == lead + (a + (b + [close] + rest))
  {
  }

  /** A list text `m` made of `a` and `b`, followed by a closing byte and `rest`. */
  lemma {:induction false} RegroupFirst(m: seq<byte>, a: seq<byte>, b: seq<byte>, close: byte, rest: seq<byte>)
    requires m == a + b
    ensures m + [close] + rest == a + (b + [close] + rest)
  {
  }

  /** A member text starts with the quote of its name. */
  lemma {:induction false} MemberTextStart(key: string, t: seq<byte>)
    requires IsText(key)
    ensures MemberText(key, t) != [] && MemberText(key, t)[0] == QUOTE
  {
  }

  /** ParseObject on input that starts with a member name. */
  lemma {:induction false} ObjectStep(s: seq<byte>, ms: seq<(string, Value)>, rest: seq<byte>)
    requires s != [] && s[0] == QUOTE
    requires ParseMembers(s) == Parsed(ms, rest)
    ensures ParseObject(s) == Parsed(Object(ms), rest)
  {
  }

  /** ParseMembers on input that starts with a member, given how its name and its value read. */
  lemma {:induction false} MemberStep(s: seq<byte>, key: string, u: seq<byte>, val: Value, after: seq<byte>)
    requires s != [] && s[0] == QUOTE && ParseChars(s[1..]) == Parsed(key, u)
    requires u != [] && u[0] == COLON && ParseValue(u[1..]) == Parsed(val, after)
    requires after != [] && (after[0] == RBRACE || after[0] == COMMA)
    ensures after[0] == RBRACE ==> ParseMembers(s) == Parsed([(key, val)], after[1..])
    ensures after[0] == COMMA ==>
              ParseMembers(s) == match ParseMembers(after[1..])
                                 case Parsed(ms, rest) => Parsed([(key, val)] + ms, rest)
                                 case Stuck(at) => Stuck(at)
  {
  }

  /** Reading a written member name, a colon, then a value text `t` that reads as `val`. */
  lemma {:induction false} MemberTextStep(key: string, t: seq<byte>, val: Value, after: seq<byte>)
    requires IsText(key)
    requires ParseValue(t + after) == Parsed(val, after)
    requires after != [] && (after[0] == RBRACE || after[0] == COMMA)
    ensures after[0] == RBRACE ==> ParseMembers(MemberText(key, t) + after) == Parsed([(key, val)], after[1..])
    ensures after[0] == COMMA ==>
              ParseMembers(MemberText(key, t) + after) == match ParseMembers(after[1..])
                                 case Parsed(ms, rest) => Parsed([(key, val)] + ms, rest)
                                 case Stuck(at) => Stuck(at)
  {
    var u := [COLON] + t + after;
    MemberTextName(key, t, after);
    assert u[0] == COLON && u[1..] == t + after;
    MemberStep(MemberText(key, t) + after, key, u, val, after);
  }

  /** A written member starts with its name, which reads back up to the colon. */
  lemma {:induction false} MemberTextName(key: string, t: seq<byte>, after: seq<byte>)
    requires IsText(key)
    ensures var s := MemberText(key, t) + after;
            s != [] && s[0] == QUOTE && ParseChars(s[1..]) == Parsed(key, [COLON] + t + after)
  {
    var u := [COLON] + t + after;
    assert MemberText(key, t) + after == StringText(key) + u;
    StringRoundTrip(key, u);
  }

  /** The `i`-th item, the items after it, the closing bracket and what follows are read back as those items. */
  lemma {:induction false} ItemsRoundTrip(v: Value, i: nat, rest: seq<byte>)
    requires v.Array? && Writable(v) && i < |v.items|
    ensures ParseItems(Serialize(v.items[i]) + (ItemsText(v, i + 1) + [RBRACKET] + rest)) == Parsed(v.items[i..], rest)
    decreases v, 0, |v.items| - i, 1
  {
    if i + 1 == |v.items| {
      LastItemRoundTrip(v, i, rest);
    } else {
      MoreItemsRoundTrip(v, i, rest);
    }
  }

  /** The round trip of the last item. */
  lemma {:induction false} LastItemRoundTrip(v: Value, i: nat, rest: seq<byte>)
    requires v.Array? && Writable(v) && i + 1 == |v.items|
    ensures ParseItems(Serialize(v.items[i]) + (ItemsText(v, i + 1) + [RBRACKET] + rest)) == Parsed(v.items[i..], rest)
    decreases v, 0, |v.items| - i, 0
  {
    ValueRoundTrip(v.items[i], ItemsText(v, i + 1) + [RBRACKET] + rest);
    LastItemRead(Serialize(v.items[i]), v.items[i], ItemsText(v, i + 1), rest);
    assert v.items[i..] == [v.items[i]];
  }

  /** The round trip of an item that has others after it. */
  lemma {:induction false} MoreItemsRoundTrip(v: Value, i: nat, rest: seq<byte>)
    requires v.Array? && Writable(v) && i + 1 < |v.items|
    ensures ParseItems(Serialize(v.items[i]) + (ItemsText(v, i + 1) + [RBRACKET] + rest)) == Parsed(v.items[i..], rest)
    decreases v, 0, |v.items| - i, 0
  {
    var j := i + 1;
    var m1, m2 := ItemsText(v, j), ItemsText(v, j + 1);
    var first := Serialize(v.items[j]);
    ItemsTextStep(v, j);
    assert (m1 + [RBRACKET] + rest)[0] == COMMA;
    ValueRoundTrip(v.items[i], m1 + [RBRACKET] + rest);
    ItemsRoundTrip(v, j, rest);
    ItemRead(Serialize(v.items[i]), v.items[i], m1, first, m2, v.items[j..], rest);
    ItemsSplit(v.items, i);
  }

  lemma {:induction false} ItemsSplit(vs: seq<Value>, i: nat)
    requires i < |vs|
    ensures vs[i..] == [vs[i]] + vs[i + 1..]
  {
  }

  /** The items text from a later item on starts with a comma. */
  lemma {:induction false} ItemsTextStep(v: Value, j: nat)
    requires v.Array? && Writable(v) && 0 < j < |v.items|
    ensures ItemsText(v, j) == [COMMA] + Serialize(v.items[j]) + ItemsText(v, j + 1)
  {
  }

  /** Reading the last item, text `t` of value `val`, and the closing bracket. */
  lemma {:induction false} LastItemRead(t: seq<byte>, val: Value, m1: seq<byte>, rest: seq<byte>)
    requires m1 == []
    requires ParseValue(t + (m1 + [RBRACKET] + rest)) == Parsed(val, m1 + [RBRACKET] + rest)
    ensures ParseItems(t + (m1 + [RBRACKET] + rest)) == Parsed([val], rest)
  {
    assert m1 + [RBRACKET] + rest == [RBRACKET] + rest;
  }

  /** Reading an item followed by the items text `m1`: a comma, the next item `first` and the remainder `m2`. */
  lemma {:induction false} ItemRead(t: seq<byte>, val: Value, m1: seq<byte>, first: seq<byte>, m2: seq<byte>, vs: seq<Value>, rest: seq<byte>)
    requires m1 == [COMMA] + first + m2
    requires ParseValue(t + (m1 + [RBRACKET] + rest)) == Parsed(val, m1 + [RBRACKET] + rest)
    requires ParseItems(first + (m2 + [RBRACKET] + rest)) == Parsed(vs, rest)
    ensures ParseItems(t + (m1 + [RBRACKET] + rest)) == Parsed([val] + vs, rest)
  {
    Regroup([COMMA], m1, first, m2, RBRACKET, rest);
    var after := [COMMA] + (first + (m2 + [RBRACKET] + rest));
    assert after[1..] == first + (m2 + [RBRACKET] + rest);
  }

  /** The `i`-th member, the members after it, the closing brace and what follows are read back as those members. */
  lemma {:induction false} MembersRoundTrip(v: Value, i: nat, rest: seq<byte>)
    requires v.Object? && Writable(v) && i < |v.members|
    ensures ParseMembers(MemberText(v.members[i].0, Serialize(v.members[i].1)) + (MembersText(v, i + 1) + [RBRACE] + rest))
            == Parsed(v.members[i..], rest)
    decreases v, 0, |v.members| - i, 1
  {
    if i + 1 == |v.members| {
      LastMemberRoundTrip(v, i, rest);
    } else {
      MoreMembersRoundTrip(v, i, rest);
    }
  }

  /** The round trip of the last member. */
  lemma {:induction false} LastMemberRoundTrip(v: Value, i: nat, rest: seq<byte>)
    requires v.Object? && Writable(v) && i + 1 == |v.members|
    ensures ParseMembers(MemberText(v.members[i].0, Serialize(v.members[i].1)) + (MembersText(v, i + 1) + [RBRACE] + rest))
            == Parsed(v.members[i..], rest)
    decreases v, 0, |v.members| - i, 0
  {
    ValueRoundTrip(v.members[i].1, MembersText(v, i + 1) + [RBRACE] + rest);
    LastMemberRead(v.members[i].0, Serialize(v.members[i].1), v.members[i].1, MembersText(v, i + 1), rest);
    assert v.members[i..] == [v.members[i]];
  }

  /** The round trip of a member that has others after it. */
  lemma {:induction false} MoreMembersRoundTrip(v: Value, i: nat, rest: seq<byte>)
    requires v.Object? && Writable(v) && i + 1 < |v.members|
    ensures ParseMembers(MemberText(v.members[i].0, Serialize(v.members[i].1)) + (MembersText(v, i + 1) + [RBRACE] + rest))
            == Parsed(v.members[i..], rest)
    decreases v, 0, |v.members| - i, 0
  {
    var j := i + 1;
    var key, val := v.members[i].0, v.members[i].1;
    assert IsText(key) && Writable(val);
    var m1, m2 := MembersText(v, j), MembersText(v, j + 1);
    var first := MembersTextStep(v, j);
    var after := m1 + [RBRACE] + rest;
    assert after[0] == COMMA;
    ValueRoundTrip(val, after);
    MembersRoundTrip(v, j, rest);
    MemberRead(key, Serialize(val), val, m1, first, m2, v.members[j..], rest);
    MembersSplit(v.members, i);
  }

  lemma {:induction false} MembersSplit(ms: seq<(string, Value)>, i: nat)
    requires i < |ms|
    ensures ms[i..] == [(ms[i].0, ms[i].1)] + ms[i + 1..]
  {
  }

  /** The members text from a later member on starts with a comma and that member's text `first`. */
  lemma {:induction false} MembersTextStep(v: Value, j: nat) returns (first: seq<byte>)
    requires v.Object? && Writable(v) && 0 < j < |v.members|
    ensures IsText(v.members[j].0) && first == MemberText(v.members[j].0, Serialize(v.members[j].1))
    ensures MembersText(v, j) == [COMMA] + first + MembersText(v, j + 1)
  {
    assert IsText(v.members[j].0) && Writable(v.members[j].1);
    first := MemberText(v.members[j].0, Serialize(v.members[j].1));
  }

  /** Reading the last member, text `t` of value `val`, and the closing brace. */
  lemma {:induction false} LastMemberRead(key: string, t: seq<byte>, val: Value, m1: seq<byte>, rest: seq<byte>)
    requires IsText(key) && m1 == []
    requires ParseValue(t + (m1 + [RBRACE] + rest)) == Parsed(val, m1 + [RBRACE] + rest)
    ensures ParseMembers(MemberText(key, t) + (m1 + [RBRACE] + rest)) == Parsed([(key, val)], rest)
  {
    var after := m1 + [RBRACE] + rest;
    assert after == [RBRACE] + rest;
    MemberTextStep(key, t, val, after);
  }

  /** Reading a member followed by the members text `m1`: a comma, the next member `first` and the remainder `m2`. */
  lemma {:induction false} MemberRead(key: string, t: seq<byte>, val: Value, m1: seq<byte>, first: seq<byte>, m2: seq<byte>,
                   ms: seq<(string, Value)>, rest: seq<byte>)
    requires IsText(key) && m1 == [COMMA] + first + m2
    requires ParseValue(t + (m1 + [RBRACE] + rest)) == Parsed(val, m1 + [RBRACE] + rest)
    requires ParseMembers(first + (m2 + [RBRACE] + rest)) == Parsed(ms, rest)
    ensures ParseMembers(MemberText(key, t) + (m1 + [RBRACE] + rest)) == Parsed([(key, val)] + ms, rest)
  {
    Regroup([COMMA], m1, first, m2, RBRACE, rest);
    MembersCons(key, t, val, first + (m2 + [RBRACE] + rest), ms, rest);
  }

  /** A member followed by a comma and members that read as `ms`. */
  lemma {:induction false} MembersCons(key: string, t: seq<byte>, val: Value, next: seq<byte>, ms: seq<(string, Value)>, rest: seq<byte>)
    requires IsText(key)
    requires ParseValue(t + ([COMMA] + next)) == Parsed(val, [COMMA] + next)
    requires ParseMembers(next) == Parsed(ms, rest)
    ensures ParseMembers(MemberText(key, t) + ([COMMA] + next)) == Parsed([(key, val)] + ms, rest)
  {
    MemberTextStep(key, t, val, [COMMA] + next);
    assert ([COMMA] + next)[1..] == next;
  }

  /** The parser reads back every document the serializer writes. */
  lemma {:induction false} DocumentRoundTrip(v: Value)
    requires Writable(v)
    ensures ParseDocument(Serialize(v)) == Parsed(v, [])
  {
    ValueRoundTrip(v, []);
    assert Serialize(v) + [] == Serialize(v);
  }
}
