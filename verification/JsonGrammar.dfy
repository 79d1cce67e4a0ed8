/** Documents as they are spelled: the texts the parser should accept, and what each means. The
    definitions are those of section 2 of RFC 8259, where strings and numbers are looked at as far as
    steps.go does before it asks the library. */
module JsonGrammar {
  import opened Sequences
  import opened Bytes
  import opened JsonSpec

  // ---- tokens ----

  predicate AllWs(w: Text) { forall b :: b in w ==> b in Ascii(" \t\n\r") }

  predicate IsWord(w: Text) { w == Ascii("true") || w == Ascii("false") || w == Ascii("null") }

  predicate IsNumber(t: Text) {
    t != [] && t[0] in Ascii("-0123456789") && forall b :: b in t ==> b in Ascii("+-0123456789.eE")
  }

  /** How many backslashes stand directly in front of `i`. */
  function Slashes(t: Text, i: nat): nat
    requires i <= |t|
  {
    if i > 0 && t[i - 1] == 0x5C then 1 + Slashes(t, i - 1) else 0
  }

  /** Position `i` is not escaped. */
  predicate Bare(t: Text, i: nat)
    requires i <= |t|
  {
    Slashes(t, i) % 2 == 0
  }

  /** A string with its quotes: the closing one is the first that is not escaped, and no control
      character stands before it unless a backslash takes it away. */
  predicate IsToken(t: Text) {
    && |t| >= 2 && t[0] == 0x22 && t[|t| - 1] == 0x22 && Bare(t, |t| - 1)
    && forall i {:trigger t[i]} :: 0 < i < |t| - 1 && Bare(t, i) ==> t[i] != 0x22 && t[i] >= 0x20
  }

  // ---- documents ----

  datatype Doc =
    | Word(text: Text)
    | Number(text: Text)
    | String(token: Text)
    | NoItems(ws: Text)
    | Array(items: ItemList)
    | NoMembers(ws: Text)
    | Object(members: MemberList)

  /** The white space before and behind each part is part of the spelling. */
  datatype ItemList =
    | LastItem(before: Text, val: Doc, behind: Text)
    | MoreItems(before: Text, val: Doc, behind: Text, rest: ItemList)

  datatype Pair = Pair(before: Text, key: Text, middle: Text, gap: Text, val: Doc, behind: Text)
  datatype MemberList = LastMember(pair: Pair) | MoreMembers(pair: Pair, rest: MemberList)

  function Spell(d: Doc): Text {
    match d
    case Word(w) => w
    case Number(t) => t
    case String(t) => t
    case NoItems(ws) => Ascii("[") + ws + Ascii("]")
    case Array(items) => Ascii("[") + SpellItems(items)
    case NoMembers(ws) => Ascii("{") + ws + Ascii("}")
    case Object(members) => Ascii("{") + SpellMembers(members)
  }

  function SpellItems(l: ItemList): Text {
    match l
    case LastItem(b, v, a) => b + Spell(v) + a + Ascii("]")
    case MoreItems(b, v, a, rest) => b + Spell(v) + a + Ascii(",") + SpellItems(rest)
  }

  function SpellPair(p: Pair): Text { p.before + p.key + p.middle + Ascii(":") + p.gap + Spell(p.val) + p.behind }

  function SpellMembers(l: MemberList): Text {
    match l
    case LastMember(p) => SpellPair(p) + Ascii("}")
    case MoreMembers(p, rest) => SpellPair(p) + Ascii(",") + SpellMembers(rest)
  }

  // ---- which ones are right ----

  predicate Readable(lib: Lib, token: Text) { IsToken(token) && lib.unquote(token).Some? }

  function Unquoted(lib: Lib, token: Text): Text { match lib.unquote(token) case Some(t) => t case None => [] }

  /** `depth` containers lie around it. */
  predicate DocOk(lib: Lib, d: Doc, depth: nat) {
    && depth <= 64
    && match d
       case Word(w) => IsWord(w)
       case Number(t) => IsNumber(t) && lib.float(t)
       case String(t) => Readable(lib, t)
       case NoItems(ws) => AllWs(ws)
       case Array(items) => ItemsOk(lib, items, depth + 1)
       case NoMembers(ws) => AllWs(ws)
       case Object(members) => MembersOk(lib, members, depth + 1) && NoDup(Keys(lib, members))
  }

  predicate ItemsOk(lib: Lib, l: ItemList, depth: nat) {
    && AllWs(l.before) && AllWs(l.behind) && DocOk(lib, l.val, depth)
    && (l.MoreItems? ==> ItemsOk(lib, l.rest, depth))
  }

  predicate PairOk(lib: Lib, p: Pair, depth: nat) {
    && AllWs(p.before) && AllWs(p.middle) && AllWs(p.gap) && AllWs(p.behind)
    && Readable(lib, p.key) && DocOk(lib, p.val, depth)
  }

  predicate MembersOk(lib: Lib, l: MemberList, depth: nat) {
    PairOk(lib, l.pair, depth) && (l.MoreMembers? ==> MembersOk(lib, l.rest, depth))
  }

  function Keys(lib: Lib, l: MemberList): seq<Text> {
    [Unquoted(lib, l.pair.key)] + if l.MoreMembers? then Keys(lib, l.rest) else []
  }

  // ---- what they mean ----

  function Meaning(lib: Lib, d: Doc): Json {
    match d
    case Word(w) => if w == Ascii("null") then JNull else JBool(w)
    case Number(t) => JNum(t)
    case String(t) => JStr(Unquoted(lib, t))
    case NoItems(_) => JArr([])
    case Array(items) => JArr(ItemsMean(lib, items))
    case NoMembers(_) => JObj([])
    case Object(members) => JObj(MembersMean(lib, members))
  }

  function ItemsMean(lib: Lib, l: ItemList): seq<Json> {
    [Meaning(lib, l.val)] + if l.MoreItems? then ItemsMean(lib, l.rest) else []
  }

  function MembersMean(lib: Lib, l: MemberList): seq<Member> {
    [Member(Unquoted(lib, l.pair.key), Meaning(lib, l.pair.val))]
    + if l.MoreMembers? then MembersMean(lib, l.rest) else []
  }

  /** A whole file: perhaps a byte order mark, and white space around the document. */
  datatype File = File(bom: bool, before: Text, doc: Doc, behind: Text)

  function SpellFile(f: File): Text {
    (if f.bom then [0xEF, 0xBB, 0xBF] else []) + f.before + Spell(f.doc) + f.behind
  }

  predicate FileOk(lib: Lib, f: File) { AllWs(f.before) && AllWs(f.behind) && DocOk(lib, f.doc, 0) }
}
