/** What the position-keeping parser of steps.go accepts, as functions of the text and a
    start position. Every function returns the position after what it read, so the parser
    object of JsonParser.dfy can be compared with it step by step. */
module JsonSpec {
  import opened Wrappers
  import opened Bytes

  type Text = seq<byte>

  /** The library calls the parser and the editor make: `json.Unmarshal` of one string token,
      `json.Marshal` of one string, and whether `strconv.ParseFloat` accepts a token. */
  datatype Lib = Lib(unquote: Text -> Option<Text>, quote: Text -> Text, float: Text -> bool)

  datatype Kind = KNull | KBool | KNum | KStr | KArr | KObj

  /** `jnode` and `jkv`: a value with its byte positions. */
  datatype Node = Node(kind: Kind, at: nat, end: nat, str: Text, items: seq<Node>, keys: seq<KeyVal>)
  datatype KeyVal = KeyVal(key: Text, at: nat, val: Node)

  datatype Fault =
    | TooDeep | NoValue | NotAValue | BadWord | BadNumber
    | KeyNotString | NoColon | DuplicateKey | TrailingComma | NoClose
    | OpenString | NewlineInString | ControlInString | BadEscape
    | TrailingText

  datatype Unit = Unit

  datatype Parsed<+T> = Ok(val: T, next: nat) | Bad(at: nat, why: Fault)

  const MAX_DEPTH := 64

  const LF: byte := 0x0A
  const CR: byte := 0x0D
  const TAB: byte := 0x09
  const SPACE: byte := 0x20
  const QUOTE: byte := 0x22
  const COMMA: byte := 0x2C
  const COLON: byte := 0x3A
  const LBRACKET: byte := 0x5B
  const BACKSLASH: byte := 0x5C
  const RBRACKET: byte := 0x5D
  const LBRACE: byte := 0x7B
  const RBRACE: byte := 0x7D

  const TRUE: Text := [0x74, 0x72, 0x75, 0x65]
  const FALSE: Text := [0x66, 0x61, 0x6C, 0x73, 0x65]
  const NULL: Text := [0x6E, 0x75, 0x6C, 0x6C]
  const BOM: Text := [0xEF, 0xBB, 0xBF]

  predicate IsWs(b: byte) { b == SPACE || b == TAB || b == LF || b == CR }

  predicate IsDigit(b: byte) { 0x30 <= b <= 0x39 }

  /** One of `+-0123456789.eE`: the bytes a number token runs over. */
  predicate IsNumByte(b: byte) {
    IsDigit(b) || b == 0x2B || b == 0x2D || b == 0x2E || b == 0x65 || b == 0x45
  }

  predicate ByteAt(s: Text, i: nat, b: byte) { i < |s| && s[i] == b }

  predicate WordAt(s: Text, i: nat, w: Text) { i + |w| <= |s| && s[i..i + |w|] == w }

  function SkipWs(s: Text, i: nat): (j: nat)
    requires i <= |s|
    ensures i <= j <= |s|
    ensures j < |s| ==> !IsWs(s[j])
    decreases |s| - i
  {
    if i < |s| && IsWs(s[i]) then SkipWs(s, i + 1) else i
  }

  function NumEnd(s: Text, i: nat): (j: nat)
    requires i <= |s|
    ensures i <= j <= |s|
    ensures j < |s| ==> !IsNumByte(s[j])
    decreases |s| - i
  {
    if i < |s| && IsNumByte(s[i]) then NumEnd(s, i + 1) else i
  }

  /** From just after an opening quote at `start` to just after the closing one. A backslash
      skips the byte behind it, whatever it is. */
  function CloseQuote(s: Text, i: nat, start: nat): (r: Parsed<Unit>)
    ensures r.Ok? ==> i < r.next <= |s|
    decreases |s| - i
  {
    if i >= |s| then Bad(start, OpenString)
    else if s[i] == QUOTE then Ok(Unit, i + 1)
    else if s[i] == BACKSLASH then CloseQuote(s, i + 2, start)
    else if s[i] == LF then Bad(i, NewlineInString)
    else if s[i] < 0x20 then Bad(i, ControlInString)
    else CloseQuote(s, i + 1, start)
  }

  function Str(lib: Lib, s: Text, i: nat): (r: Parsed<Text>)
    requires i < |s|
    ensures r.Ok? ==> i < r.next <= |s|
  {
    match CloseQuote(s, i + 1, i)
    case Bad(at, why) => Bad(at, why)
    case Ok(_, e) =>
      match lib.unquote(s[i..e])
      case None => Bad(i, BadEscape)
      case Some(t) => Ok(t, e)
  }

  predicate HasKey(keys: seq<KeyVal>, k: Text) { exists m :: 0 <= m < |keys| && keys[m].key == k }

  /** After a member or an element: `Ok(true, p)` when another one starts at `p`,
      `Ok(false, p)` when the container closed just before `p`. */
  function AfterItem(s: Text, i: nat, close: byte): (r: Parsed<bool>)
    requires i <= |s|
    ensures r.Ok? ==> i < r.next <= |s| && (r.val ==> SkipWs(s, r.next) == r.next)
  {
    var t := SkipWs(s, i);
    if ByteAt(s, t, COMMA) then
      var u := SkipWs(s, t + 1);
      if ByteAt(s, u, close) then Bad(u, TrailingComma) else Ok(true, u)
    else if ByteAt(s, t, close) then Ok(false, t + 1)
    else Bad(t, NoClose)
  }

  /** A string, a word or a number at `at`. */
  function Scalar(lib: Lib, s: Text, at: nat): (r: Parsed<Node>)
    requires at < |s|
    ensures r.Ok? ==>
              at < r.next <= |s| && r.val.at == at && r.val.end == r.next && r.val.kind != KObj && r.val.kind != KArr
  {
    if s[at] == QUOTE then
      (match Str(lib, s, at)
       case Bad(p, why) => Bad(p, why)
       case Ok(t, e) => Ok(Node(KStr, at, e, t, [], []), e))
    else if s[at] == TRUE[0] || s[at] == FALSE[0] || s[at] == NULL[0] then
      if WordAt(s, at, TRUE) then Ok(Node(KBool, at, at + 4, TRUE, [], []), at + 4)
      else if WordAt(s, at, FALSE) then Ok(Node(KBool, at, at + 5, FALSE, [], []), at + 5)
      else if WordAt(s, at, NULL) then Ok(Node(KNull, at, at + 4, [], [], []), at + 4)
      else Bad(at, BadWord)
    else if s[at] == 0x2D || IsDigit(s[at]) then
      var e := NumEnd(s, at);
      if lib.float(s[at..e]) then Ok(Node(KNum, at, e, s[at..e], [], []), e)
      else Bad(at, BadNumber)
    else Bad(at, NotAValue)
  }

  function Value(lib: Lib, s: Text, i: nat, depth: nat): (r: Parsed<Node>)
    requires i <= |s|
    ensures r.Ok? ==> i < r.next <= |s| && r.val.at == SkipWs(s, i) < r.next && r.val.end == r.next
    decreases |s| - i, 1
  {
    if depth > MAX_DEPTH then Bad(i, TooDeep)
    else
      var at := SkipWs(s, i);
      if at == |s| then Bad(at, NoValue)
      else if s[at] == LBRACE then
        var j := SkipWs(s, at + 1);
        if ByteAt(s, j, RBRACE) then Ok(Node(KObj, at, j + 1, [], [], []), j + 1)
        else (match Members(lib, s, j, depth, [])
              case Bad(p, why) => Bad(p, why)
              case Ok(ks, e) => Ok(Node(KObj, at, e, [], [], ks), e))
      else if s[at] == LBRACKET then
        var j := SkipWs(s, at + 1);
        if ByteAt(s, j, RBRACKET) then Ok(Node(KArr, at, j + 1, [], [], []), j + 1)
        else (match Items(lib, s, j, depth, [])
              case Bad(p, why) => Bad(p, why)
              case Ok(xs, e) => Ok(Node(KArr, at, e, [], xs, []), e))
      else Scalar(lib, s, at)
  }

  /** One `"key": value`, from its opening quote (after white space). */
  function Entry(lib: Lib, s: Text, i: nat, depth: nat): (r: Parsed<KeyVal>)
    requires i <= |s|
    ensures r.Ok? ==> i < r.next <= |s| && r.val.at == SkipWs(s, i) && r.val.val.end == r.next
    ensures r.Ok? ==> r.val.at < r.val.val.at < r.next
    decreases |s| - i, 2
  {
    var kat := SkipWs(s, i);
    if !ByteAt(s, kat, QUOTE) then Bad(kat, KeyNotString)
    else match Str(lib, s, kat)
      case Bad(p, why) => Bad(p, why)
      case Ok(k, e) =>
        var c := SkipWs(s, e);
        if !ByteAt(s, c, COLON) then Bad(c, NoColon)
        else match Value(lib, s, c + 1, depth + 1)
          case Bad(p, why) => Bad(p, why)
          case Ok(v, e2) => Ok(KeyVal(k, kat, v), e2)
  }

  /** The members of an object from a loop head at `i`, with `acc` read so far. */
  function Members(lib: Lib, s: Text, i: nat, depth: nat, acc: seq<KeyVal>): (r: Parsed<seq<KeyVal>>)
    requires i <= |s|
    ensures r.Ok? ==> i < r.next <= |s| && acc < r.val
    ensures r.Ok? ==> forall m, l :: |acc| <= m < |r.val| && 0 <= l < m ==> r.val[l].key != r.val[m].key
    decreases |s| - i, 3
  {
    match Entry(lib, s, i, depth)
    case Bad(p, why) => Bad(p, why)
    case Ok(kv, e) =>
      if HasKey(acc, kv.key) then Bad(kv.at, DuplicateKey)
      else match AfterItem(s, e, RBRACE)
        case Bad(p, why) => Bad(p, why)
        case Ok(more, u) => if more then Members(lib, s, u, depth, acc + [kv]) else Ok(acc + [kv], u)
  }

  /** The elements of an array from a loop head at `i`, with `acc` read so far. */
  function Items(lib: Lib, s: Text, i: nat, depth: nat, acc: seq<Node>): (r: Parsed<seq<Node>>)
    requires i <= |s|
    ensures r.Ok? ==> i < r.next <= |s| && acc < r.val
    decreases |s| - i, 2
  {
    match Value(lib, s, i, depth + 1)
    case Bad(p, why) => Bad(p, why)
    case Ok(v, e) =>
      match AfterItem(s, e, RBRACKET)
      case Bad(p, why) => Bad(p, why)
      case Ok(more, u) => if more then Items(lib, s, u, depth, acc + [v]) else Ok(acc + [v], u)
  }

  function Start(s: Text): (i: nat)
    ensures i <= |s|
  {
    if BOM <= s then 3 else 0
  }

  function Parse(lib: Lib, s: Text): (r: Parsed<Node>)
    ensures r.Ok? ==> r.val.at < r.next == |s|
  {
    match Value(lib, s, Start(s), 0)
    case Bad(p, why) => Bad(p, why)
    case Ok(n, e) => if SkipWs(s, e) < |s| then Bad(SkipWs(s, e), TrailingText) else Ok(n, |s|)
  }

  /** A document without positions: what a reader of the file means by it. */
  datatype Json =
    | JNull
    | JBool(text: Text)
    | JNum(text: Text)
    | JStr(text: Text)
    | JArr(items: seq<Json>)
    | JObj(members: seq<Member>)
  datatype Member = Member(key: Text, val: Json)

  function Plain(n: Node): Json
    decreases n, 1
  {
    match n.kind
    case KNull => JNull
    case KBool => JBool(n.str)
    case KNum => JNum(n.str)
    case KStr => JStr(n.str)
    case KArr => JArr(PlainItems(n.items))
    case KObj => JObj(PlainKeys(n.keys))
  }

  function PlainItems(xs: seq<Node>): (r: seq<Json>)
    ensures |r| == |xs|
    ensures forall k :: 0 <= k < |xs| ==> r[k] == Plain(xs[k])
    decreases xs, 0
  {
    seq(|xs|, k requires 0 <= k < |xs| => Plain(xs[k]))
  }

  function PlainKeys(ks: seq<KeyVal>): (r: seq<Member>)
    ensures |r| == |ks|
    ensures forall k :: 0 <= k < |ks| ==> r[k] == Member(ks[k].key, Plain(ks[k].val))
    decreases ks, 0
  {
    seq(|ks|, k requires 0 <= k < |ks| => Member(ks[k].key, Plain(ks[k].val)))
  }
}
