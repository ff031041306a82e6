/** Printing the rows of a query result as JSON objects. */
module RowPrinting {
  import opened Options
  import opened JsonText
  import opened Messages

  /** The type codes whose values are quoted: char, text, bpchar and varchar. */
  predicate Quoted(f: Field) {
    f.typ == 18 || f.typ == 25 || f.typ == 1042 || f.typ == 1043
  }

  function FieldText(f: Field): string {
    "\"" + f.name + "\":" + if Quoted(f) then "\"" + f.text + "\"" else f.text
  }

  function FieldTexts(row: Row): (texts: seq<string>)
    ensures |texts| == |row| && forall k :: 0 <= k < |row| ==> texts[k] == FieldText(row[k])
  {
    seq(|row|, k requires 0 <= k < |row| => FieldText(row[k]))
  }

  function RowText(row: Row): string {
    "{" + Join(FieldTexts(row)) + "}"
  }

  lemma {:induction false} JoinSnoc(vs: seq<string>, v: string)
    ensures Join(vs + [v]) == if vs == [] then v else Join(vs) + ", " + v
  {
    if |vs| == 1 {
      assert (vs + [v])[1..] == [v];
    } else if vs != [] {
      assert (vs + [v])[1..] == vs[1..] + [v];
      JoinSnoc(vs[1..], v);
    }
  }

  lemma OneMoreField(row: Row, i: nat)
    requires i < |row|
    ensures "{" + Join(FieldTexts(row[..i + 1])) ==
            "{" + Join(FieldTexts(row[..i])) + (if i > 0 then ", " else "") + FieldText(row[i])
  {
    JoinSnoc(FieldTexts(row[..i]), FieldText(row[i]));
    assert FieldTexts(row[..i + 1]) == FieldTexts(row[..i]) + [FieldText(row[i])];
    if i == 0 { assert FieldTexts(row[..i]) == []; }
  }

  method PrintField(f: Field, before: string) returns (tmpval: string)
    ensures tmpval == before + FieldText(f)
  {
    tmpval := before + ("\"" + f.name + "\":");
    if Quoted(f) {
      tmpval := tmpval + ("\"" + f.text + "\"");
    } else {
      tmpval := tmpval + f.text;
    }
  }

  /** Builds the text field by field. */
  method PrintRow(row: Row) returns (tmpval: string)
    ensures tmpval == RowText(row)
  {
    tmpval := "{";
    var i := 0;
    while i < |row|
      invariant 0 <= i <= |row|
      invariant tmpval == "{" + Join(FieldTexts(row[..i]))
    {
      OneMoreField(row, i);
      if i > 0 { tmpval := tmpval + ", "; }
      tmpval := PrintField(row[i], tmpval);
      i := i + 1;
    }
    assert row[..i] == row;
    tmpval := tmpval + "}";
  }

  // ---- reading a row back ----

  datatype Value = Str(text: string) | Other(text: string)

  /** Reads a string literal: its text, and what follows the closing quote. */
  function ReadString(t: string): Option<(string, string)> {
    if t == "" || t[0] != '"' then None else ReadChars(t[1..])
  }

  function Unescape(c: char): Option<char> {
    if c == '"' || c == '\\' || c == '/' then Some(c)
    else if c == 'b' then Some(8 as char)
    else if c == 't' then Some(9 as char)
    else if c == 'n' then Some(10 as char)
    else if c == 'f' then Some(12 as char)
    else if c == 'r' then Some(13 as char)
    else None
  }

  function Hex(c: char): Option<nat> {
    if '0' <= c <= '9' then Some((c - '0') as nat)
    else if 'a' <= c <= 'f' then Some((c - 'a') as nat + 10)
    else if 'A' <= c <= 'F' then Some((c - 'A') as nat + 10)
    else None
  }

  /** One character of a string literal, and how much text stands for it. Control characters
      must not stand in a string; surrogates are not characters. */
  function ReadChar(t: string): (r: Option<(char, nat)>)
    requires t != ""
    ensures r.Some? ==> 1 <= r.value.1 <= |t| && (r.value.1 == 1 <==> t[0] != '\\')
    ensures r.Some? && r.value.1 == 1 ==> r.value.0 == t[0] && t[0] >= ' '
  {
    if t[0] < ' ' then None
    else if t[0] != '\\' then Some((t[0], 1))
    else if |t| < 2 then None
    else if t[1] == 'u' then
      if |t| < 6 || Hex(t[2]).None? || Hex(t[3]).None? || Hex(t[4]).None? || Hex(t[5]).None? then None
      else
        var code := ((Hex(t[2]).value * 16 + Hex(t[3]).value) * 16 + Hex(t[4]).value) * 16 + Hex(t[5]).value;
        if 0xD800 <= code < 0xE000 || code > 0xFFFF then None else Some((code as char, 6))
    else
      var c := Unescape(t[1]);
      if c.Some? then Some((c.value, 2)) else None
  }

  /** Characters up to the closing quote. */
  function ReadChars(t: string): Option<(string, string)>
    decreases |t|
  {
    if t == "" then None
    else if t[0] == '"' then Some(("", t[1..]))
    else
      var c := ReadChar(t);
      if c.None? then None
      else
        var r := ReadChars(t[c.value.1..]);
        if r.None? then None else Some(([c.value.0] + r.value.0, r.value.1))
  }

  /** The value a member's text stands for; no text is no value. */
  function ReadValue(t: string): Option<Value> {
    if t == "" then None
    else if t[0] == '"' then
      var s := ReadString(t);
      if s.None? || s.value.1 != "" then None else Some(Str(s.value.0))
    else Some(Other(t))
  }

  /** A member of an object: a name and a value. */
  function ReadMember(t: string): Option<(string, Value)> {
    var name := ReadString(t);
    if name.None? || name.value.1 == "" || name.value.1[0] != ':' then None
    else
      var value := ReadValue(SkipWs(name.value.1[1..]));
      if value.None? then None else Some((name.value.0, value.value))
  }

  function ReadMembers(ms: seq<string>): (r: Option<seq<(string, Value)>>)
    ensures r.Some? ==> |r.value| == |ms|
  {
    if ms == [] then Some([])
    else
      var first, rest := ReadMember(ms[0]), ReadMembers(ms[1..]);
      if first.None? || rest.None? then None else Some([first.value] + rest.value)
  }

  function ReadObject(t: string): Option<seq<(string, Value)>> {
    if t == "{}" then Some([])
    else
      var ms := Read(t, '{', '}');
      if ms.None? then None else ReadMembers(ms.value)
  }

  predicate Plain(t: string) {
    forall k :: 0 <= k < |t| ==> t[k] != '"' && t[k] != '\\' && t[k] >= ' '
  }

  /** Names and quoted values need no escaping; other values are JSON texts. */
  predicate Printable(f: Field) {
    && Plain(f.name)
    && (if Quoted(f) then Plain(f.text) else Element(f.text) && ReadValue(f.text).Some?)
  }

  function Content(f: Field): (string, Value) {
    (f.name, if f.typ in {18, 25, 1042, 1043} || ReadValue(f.text).None? then Str(f.text) else ReadValue(f.text).value)
  }

  function Contents(row: Row): (r: seq<(string, Value)>)
    ensures |r| == |row| && forall k :: 0 <= k < |row| ==> r[k] == Content(row[k])
  {
    seq(|row|, k requires 0 <= k < |row| => Content(row[k]))
  }

  lemma {:induction false} PlainRead(t: string, tail: string)
    requires Plain(t)
    ensures ReadChars(t + "\"" + tail) == Some((t, tail))
  {
    var all := t + "\"" + tail;
    if t == "" {
      assert all[1..] == tail;
    } else {
      assert t[0] != '"' && t[0] != '\\' && t[0] >= ' ';
      PlainRead(t[1..], tail);
      assert all[1..] == t[1..] + "\"" + tail;
      assert [t[0]] + t[1..] == t;
    }
  }

  lemma StringRead(t: string, tail: string)
    requires Plain(t)
    ensures ReadString("\"" + t + "\"" + tail) == Some((t, tail))
  {
    PlainRead(t, tail);
    assert ("\"" + t + "\"" + tail)[1..] == t + "\"" + tail;
  }

  lemma NameRead(f: Field)
    requires Plain(f.name)
    ensures ReadString(FieldText(f)) == Some((f.name, ":" + if Quoted(f) then "\"" + f.text + "\"" else f.text))
  {
    var value := if Quoted(f) then "\"" + f.text + "\"" else f.text;
    StringRead(f.name, ":" + value);
    assert FieldText(f) == "\"" + f.name + "\"" + (":" + value);
  }

  lemma MemberRead(f: Field)
    requires Printable(f)
    ensures ReadMember(FieldText(f)) == Some(Content(f))
  {
    var value := if Quoted(f) then "\"" + f.text + "\"" else f.text;
    NameRead(f);
    assert (":" + value)[1..] == value;
    if Quoted(f) {
      StringRead(f.text, "");
      assert value == "\"" + f.text + "\"" + "";
    }
  }

  lemma QuotedNeutral(t: string)
    requires Plain(t)
    ensures Neutral(0, "\"" + t + "\"")
  {
    PlainPrinted(t);
    TextNeutral(0, PlainChars(t));
  }

  lemma FieldIsElement(f: Field)
    requires Printable(f)
    ensures Element(FieldText(f))
  {
    var value := if Quoted(f) then "\"" + f.text + "\"" else f.text;
    QuotedNeutral(f.name);
    if Quoted(f) { QuotedNeutral(f.text); }
    LiteralNeutral(0, ":");
    NeutralConcat(0, "\"" + f.name + "\"", ":");
    NeutralConcat(0, "\"" + f.name + "\"" + ":", value);
    assert FieldText(f) == "\"" + f.name + "\"" + ":" + value;
    assert FieldText(f)[|FieldText(f)| - 1] == value[|value| - 1];
  }

  lemma {:induction false} MembersRead(row: Row)
    requires forall f :: f in row ==> Printable(f)
    ensures ReadMembers(FieldTexts(row)) == Some(Contents(row))
  {
    hide FieldText, Content, ReadMember;
    if row == [] {
    } else {
      MemberRead(row[0]);
      MembersRead(row[1..]);
      assert FieldTexts(row)[1..] == FieldTexts(row[1..]);
      assert Contents(row) == [Contents(row)[0]] + Contents(row[1..]);
    }
  }

  /** A printed row reads back as the same columns with the same values, quoted values as strings
      and all others as the JSON text they were. */
  lemma RowRoundTrip(row: Row)
    requires forall f :: f in row ==> Printable(f)
    ensures ReadObject(RowText(row)) == Some(Contents(row))
  {
    if row == [] {
      assert RowText(row) == "{}";
    } else {
      forall k | 0 <= k < |row| ensures Element(FieldTexts(row)[k]) { FieldIsElement(row[k]); }
      ReadBack(FieldTexts(row), '{', '}');
      MembersRead(row);
      assert RowText(row) == ['{'] + Join(FieldTexts(row)) + ['}'];
    }
  }

  // ---- exactly which rows survive ----

  /** What a reader must find: every column under its name, one of the types char, text, bpchar and varchar
      as its own text, any other as the value its text stands for. */
  predicate Survives(row: Row) {
    var r := ReadObject(RowText(row));
    r.Some? && Found(row, r.value)
  }

  predicate Found(row: Row, vals: seq<(string, Value)>) {
    |vals| == |row| && forall k :: 0 <= k < |row| ==> FoundOne(row[k], vals[k])
  }

  predicate FoundOne(f: Field, val: (string, Value)) {
    val.0 == f.name && if f.typ in {18, 25, 1042, 1043} then val.1 == Str(f.text) else ReadValue(f.text) == Some(val.1)
  }

  /** Reading a string literal never gains length, and loses none only if nothing was escaped. */
  lemma {:induction false} ReadCharsShrinks(t: string)
    requires ReadChars(t).Some?
    ensures var (a, rest) := ReadChars(t).value;
      && |a| + 1 + |rest| <= |t|
      && (|a| + 1 + |rest| == |t| ==> Plain(a) && t[..|a|] == a)
    decreases |t|
  {
    if t[0] == '"' {
    } else {
      var c := ReadChar(t).value;
      ReadCharsShrinks(t[c.1..]);
      var (a, rest) := ReadChars(t[c.1..]).value;
      if c.1 == 1 && |a| + 1 + |rest| == |t[1..]| {
        assert t[..|a| + 1] == [t[0]] + t[1..][..|a|];
      }
    }
  }

  /** A quote that no backslash stands before ends the literal, if nothing has ended it before. */
  lemma {:induction false} EndsAtQuote(t: string, q: nat)
    requires q < |t| && t[q] == '"' && (q > 0 ==> t[q - 1] != '\\') && ReadChars(t).Some?
    ensures |ReadChars(t).value.1| >= |t| - q - 1
    decreases |t|
  {
    if t[0] == '"' {
    } else {
      var c := ReadChar(t).value;
      EndsAtQuote(t[c.1..], q - c.1);
    }
  }

  /** A literal that reaches to the end ends with its quote; a blank before that is its last character. */
  lemma {:induction false} LastChar(t: string)
    requires ReadChars(t).Some? && ReadChars(t).value.1 == ""
    ensures t[|t| - 1] == '"'
    ensures |t| > 1 && t[|t| - 2] == ' ' ==>
              var a := ReadChars(t).value.0; a != "" && a[|a| - 1] == ' '
    decreases |t|
  {
    if t[0] == '"' {
      assert t[1..] == "";
    } else {
      var c := ReadChar(t).value;
      LastChar(t[c.1..]);
    }
  }

  /** What follows a literal does not matter to it. */
  lemma {:induction false} LiteralThenMore(t: string, more: string)
    requires ReadChars(t).Some?
    ensures ReadChars(t + more) == Some((ReadChars(t).value.0, ReadChars(t).value.1 + more))
    decreases |t|
  {
    if t[0] == '"' {
      assert (t + more)[1..] == t[1..] + more;
    } else {
      var c := ReadChar(t).value;
      assert ReadChar(t + more) == Some(c);
      assert (t + more)[c.1..] == t[c.1..] + more;
      LiteralThenMore(t[c.1..], more);
    }
  }

  /** What stands after a field: the next field's name, or the closing brace. */
  predicate Follows(tail: string) {
    tail == "}" || (|tail| > 2 && tail[..3] == ", \"")
  }

  /** y is what was taken for the value of a quoted column: if it reads as the column's text, the text
      needs no escaping. */
  lemma QuotedPlain(text: string, tail: string, y: string)
    requires Follows(tail) && y <= "\"" + text + "\"" + tail && ReadValue(y) == Some(Str(text))
    ensures Plain(text)
  {
    hide ReadChars;
    var all, t := text + "\"" + tail, y[1..];
    assert ("\"" + text + "\"" + tail)[1..] == all;
    assert t <= all;
    ReadCharsShrinks(t);
    LastChar(t);
    if |t| > |text| + 1 {
      if text == "" || text[|text| - 1] != '\\' {
        EndsAtQuote(t, |text|);
      } else {
        assert t[|t| - 1] == all[|t| - 1];
        assert tail != "}";
        assert all[|text| + 1..] == tail;
        assert |t| > |text| + 3 && t[|text| + 3] == tail[2] == '"' && t[|text| + 2] == tail[1] == ' ';
        EndsAtQuote(t, |text| + 3);
      }
    }
  }

  /** y is what was taken for the value of any other column: if it reads as the same value as the
      column's text, it is that text. */
  lemma OtherWhole(text: string, tail: string, y: string)
    requires y <= text + tail && ReadValue(text).Some? && ReadValue(y) == ReadValue(text)
    ensures y == text
  {
    hide ReadChars;
    if text[0] == '"' {
      var all := text + tail;
      var a, b := text[1..], y[1..];
      LiteralThenMore(a, tail);
      LiteralThenMore(b, all[|y|..]);
      assert a + tail == all[1..] == b + all[|y|..];
    }
  }

  lemma {:induction false} BlanksKeep(s: Scan, w: string)
    requires forall k :: 0 <= k < |w| ==> Ws(w[k])
    ensures Run(s, w).inString == s.inString && Run(s, w).depth == s.depth
    ensures !s.inString ==> Run(s, w) == s
    decreases |w|
  {
    if w == "" {
    } else {
      BlanksKeep(Step(s, w[0]), w[1..]);
    }
  }

  lemma {:induction false} EscapedInString(s: Scan, v: string)
    requires s.escaped ==> s.inString
    ensures Run(s, v).escaped ==> Run(s, v).inString
    decreases |v|
  {
    if v == "" {
    } else {
      EscapedInString(Step(s, v[0]), v[1..]);
    }
  }

  lemma {:induction false} EndInside(t: string, s: Scan)
    ensures var n := ElementEnd(t, s);
      Inside(s, t[..n]) && (n < |t| ==> Stops(Run(s, t[..n]), t[n]))
    decreases |t|
  {
    if t == "" || Stops(s, t[0]) {
    } else {
      EndInside(t[1..], Step(s, t[0]));
      var n := ElementEnd(t, s);
      assert t[..n][1..] == t[1..][..n - 1];
    }
  }

  lemma {:induction false} TrimmedBlanks(v: string)
    ensures TrimEnd(v) <= v && (forall k :: |TrimEnd(v)| <= k < |v| ==> Ws(v[k]))
    ensures TrimEnd(v) != "" ==> !Ws(TrimEnd(v)[|TrimEnd(v)| - 1])
  {
    if v != "" && Ws(v[|v| - 1]) { TrimmedBlanks(v[..|v| - 1]); }
  }

  lemma TrimmedElement(v: string, w: string, c: char)
    requires v != "" && !Ws(v[0]) && !Ws(v[|v| - 1]) && forall k :: 0 <= k < |w| ==> Ws(w[k])
    requires Inside(OUTSIDE, v + w) && Stops(Run(OUTSIDE, v + w), c)
    ensures Element(v)
  {
    RunConcat(OUTSIDE, v, w);
    BlanksKeep(Run(OUTSIDE, v), w);
    EscapedInString(OUTSIDE, v);
  }

  /** What the reader cuts off is a whole element, if something ends it. */
  lemma CutIsElement(t: string)
    requires First(t).rest != "" && First(t).element != "" && (t != "" ==> !Ws(t[0]))
    ensures Element(First(t).element) && First(t).element <= t
  {
    hide Inside, Run, ElementEnd, TrimEnd, Element;
    var n := ElementEnd(t, OUTSIDE);
    var v := First(t).element;
    EndInside(t, OUTSIDE);
    TrimmedBlanks(t[..n]);
    var w := t[..n][|v|..];
    assert t[..n] == v + w;
    TrimmedElement(v, w, t[n]);
  }

  /** What follows the name of a field that needs no escaping. */
  function ValueText(f: Field): string {
    if Quoted(f) then "\"" + f.text + "\"" else f.text
  }

  /** A prefix of a field and its tail that reads as a member under the field's name. */
  lemma MemberPrefix(f: Field, tail: string, v: string) returns (y: string)
    requires Plain(f.name) && v <= FieldText(f) + tail && ReadMember(v).Some?
    ensures v == "\"" + f.name + "\":" + y && y <= ValueText(f) + tail
    ensures ReadMember(v).value.0 == f.name && ReadValue(SkipWs(y)) == Some(ReadMember(v).value.1)
  {
    hide ReadChars, ReadValue, SkipWs;
    var head, all := "\"" + f.name + "\":", FieldText(f) + tail;
    assert all == head + (ValueText(f) + tail);
    var cut := all[|v|..];
    assert v + cut == all;
    LiteralThenMore(v[1..], cut);
    assert all[1..] == v[1..] + cut;
    StringRead(f.name, ":" + (ValueText(f) + tail));
    assert all == "\"" + f.name + "\"" + (":" + (ValueText(f) + tail));
    var rest := ReadString(v).value.1;
    assert rest + cut == ":" + (ValueText(f) + tail);
    y := rest[1..];
    assert |head| + |y| == |v|;
    assert v[..|head|] == head;
    assert v == head + v[|head|..];
    assert v[|head|..] == y;
  }

  lemma UnquotedElement(f: Field, tail: string, v: string, y: string)
    requires !Quoted(f) && Plain(f.name) && Element(v) && v == "\"" + f.name + "\":" + y && y <= f.text + tail
    requires ReadValue(f.text).Some? && ReadValue(SkipWs(y)) == ReadValue(f.text)
    ensures Printable(f)
  {
    Skipped(y);
    assert y[0] == f.text[0];
    OtherWhole(f.text, tail, y);
    var head := "\"" + f.name + "\"" + ":";
    assert v == head + f.text;
    QuotedNeutral(f.name);
    LiteralNeutral(0, ":");
    NeutralConcat(0, "\"" + f.name + "\"", ":");
    RunConcat(OUTSIDE, head, f.text);
    assert v[|v| - 1] == f.text[|f.text| - 1];
  }

  lemma {:induction false} Skipped(y: string)
    ensures SkipWs(y) != "" ==> !Ws(SkipWs(y)[0])
    ensures y != "" && !Ws(y[0]) ==> SkipWs(y) == y
  {
    if y != "" && Ws(y[0]) { Skipped(y[1..]); }
  }

  /** The first column of a text that is read as it should be. */
  lemma FirstSurvives(f: Field, tail: string, v: string)
    requires Plain(f.name) && Follows(tail) && Element(v) && v <= FieldText(f) + tail
    requires ReadMember(v).Some? && FoundOne(f, ReadMember(v).value)
    ensures Printable(f)
  {
    var y := MemberPrefix(f, tail, v);
    if Quoted(f) {
      Skipped(y);
      assert y != "" ==> y[0] == '"';
      QuotedPlain(f.text, tail, y);
    } else {
      UnquotedElement(f, tail, v, y);
    }
  }

  lemma BlankBefore(t: string, close: char)
    requires t != "" && !Ws(t[0])
    ensures Elements([' '] + t, close) == Elements(t, close)
  {
    assert ([' '] + t)[1..] == t;
  }

  /** What stands after the first field of a row. */
  function TailOf(row: Row): string
    requires row != []
  {
    if |row| == 1 then "}" else [','] + ([' '] + (Join(FieldTexts(row[1..])) + ['}']))
  }

  lemma RowTail(row: Row)
    requires row != []
    ensures Join(FieldTexts(row)) + ['}'] == FieldText(row[0]) + TailOf(row) && Follows(TailOf(row))
  {
    assert FieldTexts(row)[1..] == FieldTexts(row[1..]);
    if |row| > 1 {
      JoinShape(FieldTexts(row), '}');
      RowTail(row[1..]);
      assert TailOf(row)[2..] == FieldText(row[1]) + TailOf(row[1..]);
      assert TailOf(row)[2] == '"';
      assert TailOf(row)[..3] == ", \"";
    }
  }

  lemma {:induction false} AllSurvive(row: Row, ms: seq<string>)
    requires row != [] && forall f :: f in row ==> Plain(f.name)
    requires Elements(Join(FieldTexts(row)) + ['}'], '}') == Some(ms)
    requires ReadMembers(ms).Some? && Found(row, ReadMembers(ms).value)
    ensures forall f :: f in row ==> Printable(f)
    decreases |row|
  {
    var t, f, tail := Join(FieldTexts(row)) + ['}'], row[0], TailOf(row);
    RowTail(row);
    CutIsElement(t);
    FirstSurvives(f, tail, ms[0]);
    if |row| > 1 {
      FieldIsElement(f);
      CutOff(FieldText(f), tail);
      var more := Join(FieldTexts(row[1..])) + ['}'];
      RowTail(row[1..]);
      assert tail[1..] == [' '] + more;
      BlankBefore(more, '}');
      LaterFound(row, ms);
      AllSurvive(row[1..], ms[1..]);
    }
  }

  lemma LaterFound(row: Row, ms: seq<string>)
    requires row != [] && ReadMembers(ms).Some? && Found(row, ReadMembers(ms).value)
    ensures ReadMembers(ms[1..]).Some? && Found(row[1..], ReadMembers(ms[1..]).value)
  {
    var vals := ReadMembers(ms).value;
    assert vals[1..] == ReadMembers(ms[1..]).value;
    forall k | 0 <= k < |row[1..]| ensures FoundOne(row[1..][k], vals[1..][k]) {
      assert FoundOne(row[k + 1], vals[k + 1]);
    }
  }

  lemma PrintedFound(row: Row)
    requires forall f :: f in row ==> Printable(f)
    ensures Survives(row)
  {
    RowRoundTrip(row);
    forall k | 0 <= k < |row| ensures FoundOne(row[k], Contents(row)[k]) {
      assert row[k] in row;
    }
  }

  /** A row with plain column names reads back as its columns exactly when every quoted value needs no
      escaping and every other value is a whole element of its own: the printer does not escape, and an
      SQL null prints as nothing. The reader does not look into values without quotes; for them to be
      JSON, too, see RowIsJson. */
  lemma RowRoundTripIff(row: Row)
    requires forall f :: f in row ==> Plain(f.name)
    ensures Survives(row) <==> forall f :: f in row ==> Printable(f)
  {
    hide Survives, Printable;
    if forall f :: f in row ==> Printable(f) {
      PrintedFound(row);
    } else if Survives(row) {
      SurvivingRow(row);
    }
  }

  lemma NotEmpty(row: Row)
    requires row != []
    ensures RowText(row) != "{}" && RowText(row)[1..] == Join(FieldTexts(row)) + ['}']
  {
    hide Join, FieldTexts;
    RowTail(row);
    assert RowText(row)[1..] == Join(FieldTexts(row)) + ['}'];
    assert |FieldText(row[0])| > 0;
  }

  lemma SurvivingRow(row: Row)
    requires row != [] && Survives(row) && forall f :: f in row ==> Plain(f.name)
    ensures forall f :: f in row ==> Printable(f)
  {
    hide Elements, ReadMembers, Printable, FieldText, Plain, FieldTexts, Join, TailOf, Found;
    NotEmpty(row);
    AllSurvive(row, Read(RowText(row), '{', '}').value);
  }

  /** By the grammar alone: with values that are JSON texts where they are not quoted, the row is an
      object. */
  lemma RowIsJson(row: Row)
    requires forall f :: f in row ==> Plain(f.name) && if Quoted(f) then Plain(f.text) else IsJson(f.text)
    ensures IsJson(RowText(row))
  {
    if row == [] {
      assert Ok(Empty(Object, "")) && Print(Empty(Object, "")) == "{" + "" + "}";
    } else {
      var items := RowItems(row, "");
      assert "" + Join(FieldTexts(row)) == Join(FieldTexts(row));
      assert Ok(Filled(Object, items)) && Print(Filled(Object, items)) == RowText(row);
    }
  }

  /** The value of a field, as a JSON value. */
  lemma FieldValue(f: Field) returns (value: Json)
    requires if Quoted(f) then Plain(f.text) else IsJson(f.text)
    ensures Ok(value) && Print(value) == if Quoted(f) then "\"" + f.text + "\"" else f.text
  {
    if Quoted(f) {
      value := Json.Text(PlainChars(f.text));
      PlainPrinted(f.text);
    } else {
      value :| Ok(value) && Print(value) == f.text;
    }
  }

  lemma FieldItem(f: Field, before: string) returns (item: Item)
    requires Plain(f.name) && (if Quoted(f) then Plain(f.text) else IsJson(f.text)) && Blank(before)
    ensures ItemOk(Object, item) && PrintItem(item) == before + FieldText(f)
  {
    hide Print, Quoted;
    var value := FieldValue(f);
    item := Named(before, PlainChars(f.name), "", "", value, "");
    PlainPrinted(f.name);
    assert FieldText(f) == "\"" + f.name + "\"" + ":" + Print(value);
  }

  lemma {:induction false} RowItems(row: Row, before: string) returns (items: Items)
    requires row != [] && Blank(before)
    requires forall f :: f in row ==> Plain(f.name) && if Quoted(f) then Plain(f.text) else IsJson(f.text)
    ensures ItemsOk(Object, items) && PrintItems(items) == before + Join(FieldTexts(row))
    decreases |row|
  {
    var item := FieldItem(row[0], before);
    if |row| == 1 {
      items := One(item);
    } else {
      var tail := RowItems(row[1..], " ");
      items := More(item, tail);
      assert FieldTexts(row)[1..] == FieldTexts(row[1..]);
      JoinedAfter(before, FieldTexts(row));
    }
  }

  /** For a single quoted column: it reads back as its own text exactly when that needs no escaping. */
  lemma QuotedRoundTripIff(f: Field)
    requires Quoted(f) && Plain(f.name)
    ensures ReadObject(RowText([f])) == Some([(f.name, Str(f.text))]) <==> Plain(f.text)
  {
    RowRoundTripIff([f]);
    if Plain(f.text) {
      RowRoundTrip([f]);
      assert Contents([f]) == [Content(f)];
    } else if ReadObject(RowText([f])) == Some([(f.name, Str(f.text))]) {
      assert Survives([f]) && f in [f];
    }
  }
}
