/** Reading JSON texts, as far as separating the elements of an array or the members of an object
    takes: nesting, strings and escapes (sections 4, 5 and 7 of RFC 8259). And the whole grammar,
    to show that every JSON text is read as one element. */
module JsonText {
  import opened Options

  datatype Scan = Scan(depth: nat, inString: bool, escaped: bool)

  const OUTSIDE := Scan(0, false, false)

  predicate Ws(c: char) {
    c == ' ' || c == '\t' || c == '\n' || c == '\r'
  }

  /** A separator or closing bracket that belongs to the surrounding array or object. */
  predicate Stops(s: Scan, c: char) {
    s.depth == 0 && !s.inString && (c == ',' || c == ']' || c == '}')
  }

  function Step(s: Scan, c: char): Scan {
    if s.inString then
      if s.escaped then s.(escaped := false)
      else if c == '\\' then s.(escaped := true)
      else if c == '"' then s.(inString := false)
      else s
    else if c == '"' then s.(inString := true)
    else if c == '{' || c == '[' then s.(depth := s.depth + 1)
    else if (c == '}' || c == ']') && s.depth > 0 then s.(depth := s.depth - 1)
    else s
  }

  function Run(s: Scan, v: string): Scan
    decreases |v|
  {
    if v == "" then s else Run(Step(s, v[0]), v[1..])
  }

  /** No character of v ends the element that is being read. */
  predicate Inside(s: Scan, v: string)
    decreases |v|
  {
    v != "" ==> !Stops(s, v[0]) && Inside(Step(s, v[0]), v[1..])
  }

  /** A text that is read as one element: it closes what it opens, and has no white space around it. */
  predicate Element(v: string) {
    v != "" && !Ws(v[0]) && !Ws(v[|v| - 1]) && Inside(OUTSIDE, v) && Run(OUTSIDE, v) == OUTSIDE
  }

  lemma {:induction false} RunConcat(s: Scan, a: string, b: string)
    ensures Run(s, a + b) == Run(Run(s, a), b)
    ensures Inside(s, a + b) <==> Inside(s, a) && Inside(Run(s, a), b)
    decreases |a|
  {
    if a == "" {
      assert a + b == b;
    } else {
      assert (a + b)[1..] == a[1..] + b;
      RunConcat(Step(s, a[0]), a[1..], b);
    }
  }

  lemma OneChar(s: Scan, c: char)
    ensures Run(s, [c]) == Step(s, c)
    ensures Inside(s, [c]) <==> !Stops(s, c)
  {
    assert [c][1..] == "";
  }

  // ---- the reader ----

  function SkipWs(t: string): (r: string)
    ensures |r| <= |t|
  {
    if t != "" && Ws(t[0]) then SkipWs(t[1..]) else t
  }

  /** The length of the element that t starts with, trailing white space included. */
  function ElementEnd(t: string, st: Scan): (n: nat)
    ensures n <= |t|
    decreases |t|
  {
    if t == "" || Stops(st, t[0]) then 0 else 1 + ElementEnd(t[1..], Step(st, t[0]))
  }

  function TrimEnd(v: string): string {
    if v != "" && Ws(v[|v| - 1]) then TrimEnd(v[..|v| - 1]) else v
  }

  datatype Cut = Cut(element: string, rest: string)

  /** The first element of a text, and the text from the character that ends it. */
  function First(t: string): (cut: Cut)
    ensures |cut.rest| <= |t|
  {
    var b := SkipWs(t);
    var n := ElementEnd(b, OUTSIDE);
    Cut(TrimEnd(b[..n]), b[n..])
  }

  /** The elements of a text up to the closing bracket, which must be its last character. */
  function Elements(t: string, close: char): Option<seq<string>>
    decreases |t|
  {
    var cut := First(t);
    if cut.element == "" || cut.rest == "" then None
    else if cut.rest[0] == ',' then
      var others := Elements(cut.rest[1..], close);
      if others.Some? then Some([cut.element] + others.value) else None
    else if cut.rest == [close] then Some([cut.element])
    else None
  }

  /** Reads an array or object with at least one element. */
  function Read(s: string, open: char, close: char): Option<seq<string>> {
    if s != "" && s[0] == open then Elements(s[1..], close) else None
  }

  function ReadArray(s: string): Option<seq<string>> {
    Read(s, '[', ']')
  }

  // ---- the writer ----

  function Join(vs: seq<string>): string {
    if vs == [] then ""
    else if |vs| == 1 then vs[0]
    else vs[0] + ", " + Join(vs[1..])
  }

  lemma {:induction false} EndFound(v: string, tail: string, st: Scan)
    requires Inside(st, v) && tail != "" && Stops(Run(st, v), tail[0])
    ensures ElementEnd(v + tail, st) == |v|
    decreases |v|
  {
    if v == "" {
      assert v + tail == tail;
    } else {
      assert (v + tail)[1..] == v[1..] + tail;
      EndFound(v[1..], tail, Step(st, v[0]));
    }
  }

  /** An element is cut off whole at the separator or bracket that follows it. */
  lemma CutOff(v: string, tail: string)
    requires Element(v) && tail != "" && Stops(OUTSIDE, tail[0])
    ensures First(v + tail) == Cut(v, tail) && First([' '] + (v + tail)) == Cut(v, tail)
  {
    EndFound(v, tail, OUTSIDE);
    var t := v + tail;
    assert t[0] == v[0] && t[..|v|] == v && t[|v|..] == tail;
    assert SkipWs(t) == t;
    assert ([' '] + t)[1..] == t;
  }

  ghost predicate AllElements(vs: seq<string>) {
    forall k :: 0 <= k < |vs| ==> Element(vs[k])
  }

  /** t is read as vs whether or not a blank stands before it. */
  predicate ReadsAs(t: string, close: char, vs: seq<string>) {
    Elements(t, close) == Some(vs) && Elements([' '] + t, close) == Some(vs)
  }

  lemma ReadsOne(v: string, close: char)
    requires Element(v) && (close == ']' || close == '}')
    ensures ReadsAs(v + [close], close, [v])
  {
    CutOff(v, [close]);
  }

  lemma {:induction false} ReadsMore(v: string, t: string, close: char, rest: seq<string>)
    requires Element(v) && Elements(t, close) == Some(rest)
    ensures ReadsAs(v + ([','] + t), close, [v] + rest)
  {
    CutOff(v, [','] + t);
  }

  lemma AllButFirst(vs: seq<string>)
    requires vs != [] && AllElements(vs)
    ensures Element(vs[0]) && AllElements(vs[1..]) && vs == [vs[0]] + vs[1..]
  {
    forall k | 0 <= k < |vs[1..]| ensures Element(vs[1..][k]) { assert vs[1..][k] == vs[k + 1]; }
  }

  lemma JoinShape(vs: seq<string>, close: char)
    requires |vs| > 1
    ensures Join(vs) + [close] == vs[0] + ([','] + ([' '] + (Join(vs[1..]) + [close])))
  {
    var sep: string := ", ";
    assert sep == [','] + [' '];
    assert Join(vs) == vs[0] + sep + Join(vs[1..]);
  }

  /** Reading what Join has written. */
  lemma {:induction false} ElementsOfJoin(vs: seq<string>, close: char)
    requires vs != [] && AllElements(vs) && (close == ']' || close == '}')
    ensures ReadsAs(Join(vs) + [close], close, vs)
    decreases |vs|
  {
    if |vs| == 1 {
      assert vs == [vs[0]];
      ReadsOne(vs[0], close);
    } else {
      AllButFirst(vs);
      JoinShape(vs, close);
      var v, rest := vs[0], vs[1..];
      var tail := Join(rest) + [close];
      ElementsOfJoin(rest, close);
      ReadsMore(v, [' '] + tail, close, rest);
    }
  }

  /** A bracketed, comma-separated text of elements reads back as exactly those elements, in order. */
  lemma ReadBack(vs: seq<string>, open: char, close: char)
    requires vs != [] && AllElements(vs) && (close == ']' || close == '}')
    ensures Read([open] + Join(vs) + [close], open, close) == Some(vs)
  {
    var s := [open] + Join(vs) + [close];
    assert s[1..] == Join(vs) + [close];
    ElementsOfJoin(vs, close);
  }

  // ---- every JSON value is one element ----

  /** JSON texts as trees (sections 2 to 7 of RFC 8259), white space included wherever the grammar
      allows it: inside empty brackets and around every item, name, value and separator. */
  datatype Json =
    | Number(sign: string, whole: string, fraction: string, exponent: string)
    | Name(text: string)
    | Text(chars: seq<Char>)
    | Empty(kind: Kind, blank: string)
    | Filled(kind: Kind, items: Items)
  datatype Kind = Array | Object
  datatype Char = Plain(c: char) | Escaped(c: char) | Coded(hex: string)
  datatype Items = One(item: Item) | More(item: Item, tail: Items)
  datatype Item =
    | Bare(before: string, value: Json, after: string)
    | Named(before: string, name: seq<Char>, colonBefore: string, colonAfter: string, value: Json, after: string)

  function PrintChar(c: Char): string {
    match c
    case Plain(c) => [c]
    case Escaped(c) => ['\\', c]
    case Coded(hex) => ['\\', 'u'] + hex
  }

  function PrintChars(cs: seq<Char>): string {
    if cs == [] then "" else PrintChar(cs[0]) + PrintChars(cs[1..])
  }

  function PrintText(cs: seq<Char>): string {
    "\"" + PrintChars(cs) + "\""
  }

  function Open(kind: Kind): char {
    if kind == Array then '[' else '{'
  }

  function Close(kind: Kind): char {
    if kind == Array then ']' else '}'
  }

  function Print(j: Json): string {
    match j
    case Number(sign, whole, fraction, exponent) => sign + whole + fraction + exponent
    case Name(text) => text
    case Text(chars) => PrintText(chars)
    case Empty(kind, blank) => [Open(kind)] + blank + [Close(kind)]
    case Filled(kind, items) => [Open(kind)] + PrintItems(items) + [Close(kind)]
  }

  function PrintItems(items: Items): string {
    match items
    case One(item) => PrintItem(item)
    case More(item, tail) => PrintItem(item) + "," + PrintItems(tail)
  }

  function PrintItem(item: Item): string {
    match item
    case Bare(before, value, after) => before + Print(value) + after
    case Named(before, name, colonBefore, colonAfter, value, after) =>
      before + PrintText(name) + colonBefore + ":" + colonAfter + Print(value) + after
  }

  // ---- which trees are JSON ----

  predicate Blank(w: string) {
    forall k :: 0 <= k < |w| ==> Ws(w[k])
  }

  predicate Digits(t: string) {
    t != "" && forall k :: 0 <= k < |t| ==> '0' <= t[k] <= '9'
  }

  /** Section 6: no superfluous leading zero, digits after a point and in an exponent. */
  predicate NumberOk(sign: string, whole: string, fraction: string, exponent: string) {
    && (sign == "" || sign == "-")
    && Digits(whole) && (whole[0] == '0' ==> |whole| == 1)
    && (fraction == "" || (fraction[0] == '.' && Digits(fraction[1..])))
    && (exponent == "" || ExponentOk(exponent))
  }

  predicate ExponentOk(t: string) {
    && |t| > 1 && (t[0] == 'e' || t[0] == 'E')
    && Digits(if t[1] == '+' || t[1] == '-' then t[2..] else t[1..])
  }

  predicate HexDigit(c: char) {
    '0' <= c <= '9' || 'a' <= c <= 'f' || 'A' <= c <= 'F'
  }

  /** Section 7: quotes, backslashes and control characters are escaped, and only known escapes used. */
  predicate CharOk(c: Char) {
    match c
    case Plain(c) => c != '"' && c != '\\' && c >= ' '
    case Escaped(c) => c in "\"\\/bfnrt"
    case Coded(hex) => |hex| == 4 && forall k :: 0 <= k < 4 ==> HexDigit(hex[k])
  }

  ghost predicate CharsOk(cs: seq<Char>) {
    forall k :: 0 <= k < |cs| ==> CharOk(cs[k])
  }

  ghost predicate Ok(j: Json) {
    match j
    case Number(sign, whole, fraction, exponent) => NumberOk(sign, whole, fraction, exponent)
    case Name(text) => text == "true" || text == "false" || text == "null"
    case Text(chars) => CharsOk(chars)
    case Empty(_, blank) => Blank(blank)
    case Filled(kind, items) => ItemsOk(kind, items)
  }

  ghost predicate ItemsOk(kind: Kind, items: Items)
    decreases items
  {
    match items
    case One(item) => ItemOk(kind, item)
    case More(item, tail) => ItemOk(kind, item) && ItemsOk(kind, tail)
  }

  ghost predicate ItemOk(kind: Kind, item: Item)
    decreases item
  {
    match item
    case Bare(before, value, after) => kind == Array && Blank(before) && Ok(value) && Blank(after)
    case Named(before, name, colonBefore, colonAfter, value, after) =>
      && kind == Object && Blank(before) && CharsOk(name) && Blank(colonBefore) && Blank(colonAfter)
      && Ok(value) && Blank(after)
  }

  /** A JSON text without white space around it. */
  ghost predicate IsJson(text: string) {
    exists j :: Ok(j) && Print(j) == text
  }

  // ---- what the scanner makes of them ----

  predicate Special(c: char) {
    c == '"' || c == '\\' || c == '{' || c == '}' || c == '[' || c == ']' || c == ','
  }

  ghost predicate NoSpecial(t: string) {
    forall k :: 0 <= k < |t| ==> !Special(t[k])
  }

  /** v leaves the scanner at the depth at which it found it. */
  predicate Neutral(d: nat, v: string) {
    Inside(Scan(d, false, false), v) && Run(Scan(d, false, false), v) == Scan(d, false, false)
  }

  lemma NeutralConcat(d: nat, a: string, b: string)
    requires Neutral(d, a) && Neutral(d, b)
    ensures Neutral(d, a + b)
  {
    RunConcat(Scan(d, false, false), a, b);
  }

  lemma {:induction false} LiteralNeutral(d: nat, t: string)
    requires NoSpecial(t)
    ensures Neutral(d, t)
  {
    if t == "" {
    } else {
      assert !Special(t[0]);
      LiteralNeutral(d, t[1..]);
    }
  }

  /** Inside a string, v leaves the scanner inside that string. */
  predicate Quiet(d: nat, v: string) {
    Inside(Scan(d, true, false), v) && Run(Scan(d, true, false), v) == Scan(d, true, false)
  }

  lemma {:induction false} UnescapedQuiet(d: nat, t: string)
    requires forall k :: 0 <= k < |t| ==> t[k] != '"' && t[k] != '\\'
    ensures Quiet(d, t)
  {
    if t == "" {
    } else {
      UnescapedQuiet(d, t[1..]);
    }
  }

  lemma EscapeQuiet(d: nat, c: char)
    ensures Quiet(d, ['\\', c])
  {
    OneChar(Scan(d, true, false), '\\');
    OneChar(Scan(d, true, true), c);
    RunConcat(Scan(d, true, false), ['\\'], [c]);
    assert ['\\'] + [c] == ['\\', c];
  }

  lemma CharQuiet(d: nat, c: Char)
    requires CharOk(c)
    ensures Quiet(d, PrintChar(c))
  {
    match c
    case Plain(c) => OneChar(Scan(d, true, false), c);
    case Escaped(c) => EscapeQuiet(d, c);
    case Coded(hex) =>
      UnescapedQuiet(d, hex);
      EscapeQuiet(d, 'u');
      RunConcat(Scan(d, true, false), ['\\', 'u'], hex);
  }

  lemma {:induction false} CharsQuiet(d: nat, cs: seq<Char>)
    requires CharsOk(cs)
    ensures Quiet(d, PrintChars(cs))
  {
    if cs == [] {
    } else {
      CharQuiet(d, cs[0]);
      CharsQuiet(d, cs[1..]);
      RunConcat(Scan(d, true, false), PrintChar(cs[0]), PrintChars(cs[1..]));
    }
  }

  lemma TextNeutral(d: nat, cs: seq<Char>)
    requires CharsOk(cs)
    ensures Neutral(d, PrintText(cs))
  {
    CharsQuiet(d, cs);
    Wrapped(d, Scan(d, true, false), '"', PrintChars(cs), '"');
  }

  lemma Wrapped(d: nat, inner: Scan, open: char, body: string, close: char)
    requires !Stops(Scan(d, false, false), open) && Step(Scan(d, false, false), open) == inner
    requires Inside(inner, body) && Run(inner, body) == inner
    requires !Stops(inner, close) && Step(inner, close) == Scan(d, false, false)
    ensures Neutral(d, [open] + body + [close])
  {
    OneChar(Scan(d, false, false), open);
    OneChar(inner, close);
    RunConcat(Scan(d, false, false), [open], body);
    RunConcat(Scan(d, false, false), [open] + body, [close]);
  }

  lemma Bracketed(d: nat, kind: Kind, body: string)
    requires Neutral(d + 1, body)
    ensures Neutral(d, [Open(kind)] + body + [Close(kind)])
  {
    Wrapped(d, Scan(d + 1, false, false), Open(kind), body, Close(kind));
  }

  lemma NumberPlain(sign: string, whole: string, fraction: string, exponent: string)
    requires NumberOk(sign, whole, fraction, exponent)
    ensures var t := sign + whole + fraction + exponent;
      t != "" && forall k :: 0 <= k < |t| ==> !Special(t[k]) && !Ws(t[k])
  {
    DigitsPlain(whole);
    if fraction != "" { DigitsPlain(fraction[1..]); }
    if exponent != "" {
      DigitsPlain(if exponent[1] == '+' || exponent[1] == '-' then exponent[2..] else exponent[1..]);
    }
  }

  lemma DigitsPlain(t: string)
    requires Digits(t)
    ensures forall k :: 0 <= k < |t| ==> !Special(t[k]) && !Ws(t[k])
  {
  }

  lemma {:induction false} JsonNeutral(d: nat, j: Json)
    requires Ok(j)
    ensures Neutral(d, Print(j))
    decreases j
  {
    match j
    case Number(sign, whole, fraction, exponent) =>
      NumberPlain(sign, whole, fraction, exponent);
      LiteralNeutral(d, Print(j));
    case Name(text) => LiteralNeutral(d, text);
    case Text(chars) => TextNeutral(d, chars);
    case Empty(kind, blank) =>
      LiteralNeutral(d + 1, blank);
      Bracketed(d, kind, blank);
    case Filled(kind, items) =>
      ItemsNeutral(d + 1, kind, items);
      Bracketed(d, kind, PrintItems(items));
  }

  /** Separators are only read over inside brackets. */
  lemma {:induction false} ItemsNeutral(d: nat, kind: Kind, items: Items)
    requires d > 0 && ItemsOk(kind, items)
    ensures Neutral(d, PrintItems(items))
    decreases items
  {
    match items
    case One(item) => ItemNeutral(d, kind, item);
    case More(item, tail) =>
      ItemNeutral(d, kind, item);
      ItemsNeutral(d, kind, tail);
      OneChar(Scan(d, false, false), ',');
      NeutralConcat(d, PrintItem(item), ",");
      NeutralConcat(d, PrintItem(item) + ",", PrintItems(tail));
  }

  lemma {:induction false} ItemNeutral(d: nat, kind: Kind, item: Item)
    requires ItemOk(kind, item)
    ensures Neutral(d, PrintItem(item))
    decreases item
  {
    LiteralNeutral(d, item.before);
    JsonNeutral(d, item.value);
    LiteralNeutral(d, item.after);
    match item
    case Bare(before, value, after) =>
      NeutralConcat(d, before, Print(value));
      NeutralConcat(d, before + Print(value), after);
    case Named(before, name, colonBefore, colonAfter, value, after) =>
      TextNeutral(d, name);
      LiteralNeutral(d, colonBefore);
      LiteralNeutral(d, ":");
      LiteralNeutral(d, colonAfter);
      NeutralConcat(d, before, PrintText(name));
      NeutralConcat(d, before + PrintText(name), colonBefore);
      NeutralConcat(d, before + PrintText(name) + colonBefore, ":");
      NeutralConcat(d, before + PrintText(name) + colonBefore + ":", colonAfter);
      NeutralConcat(d, before + PrintText(name) + colonBefore + ":" + colonAfter, Print(value));
      NeutralConcat(d, before + PrintText(name) + colonBefore + ":" + colonAfter + Print(value), after);
  }

  /** Every JSON text, however nested, spaced and escaped, is read as one element. */
  lemma JsonIsElement(text: string)
    requires IsJson(text)
    ensures Element(text)
  {
    var j :| Ok(j) && Print(j) == text;
    JsonNeutral(0, j);
    if j.Number? { NumberPlain(j.sign, j.whole, j.fraction, j.exponent); }
  }

  // ---- joined texts are a JSON array of them ----

  /** The texts of the values in a list. */
  function Values(items: Items): seq<string> {
    match items
    case One(item) => [Print(item.value)]
    case More(item, tail) => [Print(item.value)] + Values(tail)
  }

  /** By the grammar alone, text is an array of exactly the JSON texts vs. */
  ghost predicate IsArrayOf(text: string, vs: seq<string>) {
    exists items :: ItemsOk(Array, items) && Print(Filled(Array, items)) == text && Values(items) == vs
  }

  lemma {:induction false} JoinItems(vs: seq<string>, before: string) returns (items: Items)
    requires vs != [] && Blank(before) && forall k :: 0 <= k < |vs| ==> IsJson(vs[k])
    ensures ItemsOk(Array, items) && PrintItems(items) == before + Join(vs) && Values(items) == vs
    decreases |vs|
  {
    assert IsJson(vs[0]);
    var j :| Ok(j) && Print(j) == vs[0];
    var item := Bare(before, j, "");
    assert ItemOk(Array, item) && PrintItem(item) == before + vs[0];
    if |vs| == 1 {
      items := One(item);
    } else {
      assert forall k :: 0 <= k < |vs[1..]| ==> vs[1..][k] == vs[k + 1];
      var tail := JoinItems(vs[1..], " ");
      items := More(item, tail);
      JoinedAfter(before, vs);
    }
  }

  lemma JoinedAfter(before: string, vs: seq<string>)
    requires |vs| > 1
    ensures before + vs[0] + "," + (" " + Join(vs[1..])) == before + Join(vs)
  {
    assert "," + " " == ", ";
    assert before + vs[0] + "," + (" " + Join(vs[1..])) == before + (vs[0] + ("," + " ") + Join(vs[1..]));
  }

  /** So any reader that follows the grammar, strict or not, finds these values. */
  lemma JoinIsArray(vs: seq<string>)
    requires vs != [] && forall k :: 0 <= k < |vs| ==> IsJson(vs[k])
    ensures IsArrayOf("[" + Join(vs) + "]", vs) && IsJson("[" + Join(vs) + "]")
  {
    var items := JoinItems(vs, "");
    assert "" + Join(vs) == Join(vs);
    assert Ok(Filled(Array, items)) && Print(Filled(Array, items)) == "[" + Join(vs) + "]";
  }

  // ---- strings without anything to escape ----

  function PlainChars(t: string): (cs: seq<Char>)
    ensures |cs| == |t| && forall k :: 0 <= k < |t| ==> cs[k] == Char.Plain(t[k])
  {
    seq(|t|, k requires 0 <= k < |t| => Char.Plain(t[k]))
  }

  lemma {:induction false} PlainPrinted(t: string)
    ensures PrintChars(PlainChars(t)) == t
  {
    if t == "" {
    } else {
      PlainPrinted(t[1..]);
      assert PlainChars(t)[1..] == PlainChars(t[1..]);
      assert [t[0]] + t[1..] == t;
    }
  }
}
