/** Arrays built by appending, read back as JSON: the per-table arrays of write batches and the
    per-topic arrays of multicast batches. */
module Arrays {
  import opened Options
  import opened Workload
  import opened Messages
  import opened WriteSplit
  import J = JsonText
  import RowPrinting

  // ---- appending builds an array ----

  lemma {:induction false} FilledIsJoin(texts: seq<string>)
    requires texts != [] && forall k :: 0 <= k < |texts| ==> texts[k] != ""
    ensures Filled(texts) == "[" + J.Join(texts)
  {
    var before, last := texts[..|texts| - 1], texts[|texts| - 1];
    assert texts == before + [last];
    RowPrinting.JoinSnoc(before, last);
    if before != [] {
      FilledIsJoin(before);
      assert |Filled(before)| > 1 by { assert before[0] == texts[0]; JoinLong(before); }
    }
  }

  lemma JoinLong(texts: seq<string>)
    requires texts != [] && texts[0] != ""
    ensures J.Join(texts) != ""
  {
  }

  ghost predicate AllEmpty(texts: seq<string>) {
    forall k :: 0 <= k < |texts| ==> texts[k] == ""
  }

  lemma {:induction false} FilledShort(texts: seq<string>)
    ensures |Filled(texts)| >= 1
    ensures |Filled(texts)| == 1 <==> AllEmpty(texts)
  {
    if texts == [] {
    } else {
      var before, last := texts[..|texts| - 1], texts[|texts| - 1];
      FilledShort(before);
      assert texts == before + [last];
      assert AllEmpty(texts) <==> last == "" && AllEmpty(before);
    }
  }

  /** There is no array exactly if there is no text to put into it. */
  lemma AbsentIff(texts: seq<string>)
    ensures ArrayOf(texts) == "" <==> AllEmpty(texts)
  {
    FilledShort(texts);
  }

  lemma {:induction false} ReadNonEmpty(t: string, close: char)
    requires J.Elements(t, close).Some?
    ensures forall k :: 0 <= k < |J.Elements(t, close).value| ==> J.Elements(t, close).value[k] != ""
    decreases |t|
  {
    var cut := J.First(t);
    if cut.rest[0] == ',' { ReadNonEmpty(cut.rest[1..], close); }
  }

  /** An array of JSON texts reads back as exactly those texts, in order, if and only if there are any
      and none is empty. */
  lemma ArrayRoundTripIff(texts: seq<string>)
    requires forall k :: 0 <= k < |texts| ==> texts[k] == "" || J.Element(texts[k])
    ensures J.ReadArray(ArrayOf(texts)) == Some(texts) <==>
            texts != [] && forall k :: 0 <= k < |texts| ==> texts[k] != ""
  {
    AbsentIff(texts);
    if texts != [] && forall k :: 0 <= k < |texts| ==> texts[k] != "" {
      FilledIsJoin(texts);
      JoinLong(texts);
      assert ArrayOf(texts) == ['['] + J.Join(texts) + [']'];
      J.ReadBack(texts, '[', ']');
    } else if J.ReadArray(ArrayOf(texts)) == Some(texts) {
      ReadNonEmpty(ArrayOf(texts)[1..], ']');
    }
  }

  // ---- write batches ----

  /** What becomes of an array of texts: no text, no array; otherwise it is a JSON array of exactly these
      texts by the grammar, and the reader returns them, in order. */
  ghost predicate ReadsBack(text: string, texts: seq<string>) {
    if texts == [] then text == ""
    else J.IsArrayOf(text, texts) && J.IsJson(text) && J.ReadArray(text) == Some(texts)
  }

  lemma JsonArray(texts: seq<string>)
    requires forall k :: 0 <= k < |texts| ==> J.IsJson(texts[k])
    ensures ReadsBack(ArrayOf(texts), texts)
  {
    forall k | 0 <= k < |texts| ensures J.Element(texts[k]) { J.JsonIsElement(texts[k]); }
    AbsentIff(texts);
    ArrayRoundTripIff(texts);
    if texts != [] {
      FilledIsJoin(texts);
      JoinLong(texts);
      J.JoinIsArray(texts);
    }
  }

  /** If the queries filed under a table carry JSON texts, with whatever nesting, spacing, strings and
      escapes, the table's array is a JSON array of exactly these texts, in order of arrival; it is absent
      if there are none. */
  lemma TableArrayReadsBack(qs: Queries, unzip: Unzip, out: Option<Table>, t: Table)
    requires AllReceived(qs)
    requires forall i :: 0 <= i < |qs| && Target(qs, unzip, out, i) == Some(t) ==> J.IsJson(TextAt(qs, unzip, i))
    ensures var texts := Elements(qs, unzip, out, t, |qs|);
      ReadsBack(ArrayOf(texts), texts) && |texts| == |Routed(qs, unzip, out, t, |qs|)|
  {
    var idx := Routed(qs, unzip, out, t, |qs|);
    RoutedExact(qs, unzip, out, t, |qs|);
    forall k | 0 <= k < |idx| ensures J.IsJson(Elements(qs, unzip, out, t, |qs|)[k]) {
      assert idx[k] in idx;
      assert Target(qs, unzip, out, idx[k]) == Some(t);
    }
    JsonArray(Elements(qs, unzip, out, t, |qs|));
  }

  // ---- multicast batches ----

  const PREFIX: string := "{\"topic\":"

  function DecodeText(message: string, unzip: Unzip): Unzipped {
    if Compressed(message) then unzip(message) else Text(message)
  }

  predicate StartsWith(text: string, prefix: string) {
    |text| >= |prefix| && text[..|prefix|] == prefix
  }

  function QueueFor(letter: char): Option<Step> {
    if letter == 'L' then Some(Logging)
    else if letter == 'M' then Some(Monitoring)
    else if letter == 'T' then Some(Rootplots)
    else if letter == 'P' then Some(Plotlyplots)
    else None
  }

  /** The queue that a multicast message belongs to, by the first letter of its topic. */
  function QueueOf(text: string): Option<Step> {
    if !StartsWith(text, PREFIX) || |text| <= 10 then None else QueueFor(text[10])
  }

  /** The texts among the first n messages that belong to a queue, in order. */
  function Topical(messages: seq<string>, unzip: Unzip, step: Step, n: nat): (texts: seq<string>)
    requires n <= |messages|
  {
    if n == 0 then []
    else
      var before, d := Topical(messages, unzip, step, n - 1), DecodeText(messages[n - 1], unzip);
      if d.Text? && QueueOf(d.s) == Some(step) then before + [d.s] else before
  }

  /** A queue's texts are those of its messages, in order of arrival: each matching message is found at the
      number of matching messages before it. */
  lemma {:induction false} TopicalAt(messages: seq<string>, unzip: Unzip, step: Step, n: nat, i: nat)
    requires i < n <= |messages|
    ensures var d := DecodeText(messages[i], unzip);
      var texts, place := Topical(messages, unzip, step, n), |Topical(messages, unzip, step, i)|;
      if d.Text? && QueueOf(d.s) == Some(step)
      then place < |texts| && texts[place] == d.s && |Topical(messages, unzip, step, i + 1)| == place + 1
      else |Topical(messages, unzip, step, i + 1)| == place
  {
    if i < n - 1 { TopicalAt(messages, unzip, step, n - 1, i); }
  }

  ghost predicate AllQueues(buffers: map<Step, string>) {
    forall step :: IsMulticast(step) ==> step in buffers
  }

  ghost predicate Holds(buffers: map<Step, string>, messages: seq<string>, unzip: Unzip, n: nat)
    requires n <= |messages|
  {
    && AllQueues(buffers)
    && (forall step :: IsMulticast(step) ==> buffers[step] == Filled(Topical(messages, unzip, step, n)))
  }

  function Put(buffers: map<Step, string>, d: Unzipped): map<Step, string>
    requires AllQueues(buffers)
  {
    if d.Text? && QueueOf(d.s).Some?
    then buffers[QueueOf(d.s).value := Append(buffers[QueueOf(d.s).value], d.s)] else buffers
  }

  lemma HoldsNone(buffers: map<Step, string>, messages: seq<string>, unzip: Unzip)
    requires AllQueues(buffers) && forall step :: IsMulticast(step) ==> buffers[step] == "["
    ensures Holds(buffers, messages, unzip, 0)
  {
  }

  method FileMessage(buffers: map<Step, string>, d: Unzipped) returns (r: map<Step, string>)
    requires AllQueues(buffers) && (d.Text? && StartsWith(d.s, PREFIX) ==> |d.s| > 10)
    ensures r == Put(buffers, d)
  {
    r := buffers;
    if d.Text? && StartsWith(d.s, PREFIX) {
      var queue := QueueOf(d.s);
      if queue.Some? { r := buffers[queue.value := Append(buffers[queue.value], d.s)]; }
    }
  }

  /** A message that is nothing but the prefix and a quote has no topic letter to look at. */
  ghost predicate LettersThere(messages: seq<string>, unzip: Unzip) {
    forall k :: 0 <= k < |messages| ==>
      var d := DecodeText(messages[k], unzip); d.Text? && StartsWith(d.s, PREFIX) ==> |d.s| > 10
  }

  method SortMessages(messages: seq<string>, unzip: Unzip) returns (buffers: map<Step, string>)
    requires LettersThere(messages, unzip)
    ensures Holds(buffers, messages, unzip, |messages|)
  {
    buffers := map[Logging := "[", Monitoring := "[", Rootplots := "[", Plotlyplots := "["];
    HoldsNone(buffers, messages, unzip);
    var n := 0;
    while n < |messages|
      invariant 0 <= n <= |messages| && Holds(buffers, messages, unzip, n)
    {
      buffers := FileMessage(buffers, DecodeText(messages[n], unzip));
      n := n + 1;
    }
  }

  /** Sorts a batch of multicast messages into four arrays. */
  method MulticastMessageJob(messages: seq<string>, unzip: Unzip) returns (arrays: map<Step, string>)
    requires LettersThere(messages, unzip)
    ensures forall step :: IsMulticast(step) ==>
              step in arrays && arrays[step] == ArrayOf(Topical(messages, unzip, step, |messages|))
  {
    var buffers := SortMessages(messages, unzip);
    arrays := map step | step in buffers :: Closed(buffers[step]);
  }

  /** The messages of one topic are JSON texts. */
  ghost predicate TopicIsJson(messages: seq<string>, unzip: Unzip, step: Step) {
    forall k :: 0 <= k < |messages| ==>
      var d := DecodeText(messages[k], unzip); d.Text? && QueueOf(d.s) == Some(step) ==> J.IsJson(d.s)
  }

  lemma {:induction false} TopicalJson(messages: seq<string>, unzip: Unzip, step: Step, n: nat)
    requires n <= |messages| && TopicIsJson(messages, unzip, step)
    ensures forall k :: 0 <= k < |Topical(messages, unzip, step, n)| ==> J.IsJson(Topical(messages, unzip, step, n)[k])
  {
    if n == 0 {
    } else {
      TopicalJson(messages, unzip, step, n - 1);
    }
  }

  /** The array of a multicast queue reads back as the messages of its topic, in order of arrival,
      whatever else is in the batch. */
  lemma QueueArrayReadsBack(messages: seq<string>, unzip: Unzip, step: Step)
    requires TopicIsJson(messages, unzip, step)
    ensures var texts := Topical(messages, unzip, step, |messages|); ReadsBack(ArrayOf(texts), texts)
  {
    TopicalJson(messages, unzip, step, |messages|);
    JsonArray(Topical(messages, unzip, step, |messages|));
  }

  // ---- messages as the clients send them ----

  /** A member without any white space. */
  function Member(name: string, value: J.Json): J.Item {
    J.Named("", J.PlainChars(name), "", "", value, "")
  }

  lemma MemberText(name: string, value: J.Json)
    ensures J.PrintItem(Member(name, value)) == "\"" + name + "\":" + J.Print(value)
  {
    J.PlainPrinted(name);
  }

  /** An object that begins with a member that holds a string. */
  function Beginning(name: string, text: string, others: Option<J.Items>): J.Json {
    var first := Member(name, J.Text(J.PlainChars(text)));
    J.Filled(J.Object, if others.Some? then J.More(first, others.value) else J.One(first))
  }

  /** What follows that string. */
  function Tail(others: Option<J.Items>): string {
    if others.Some? then "," + J.PrintItems(others.value) + "}" else "}"
  }

  lemma BeginningText(name: string, text: string, others: Option<J.Items>)
    ensures J.Print(Beginning(name, text, others)) == "{" + ("\"" + name + "\":" + ("\"" + text + "\"")) + Tail(others)
  {
    J.PlainPrinted(text);
    MemberText(name, J.Text(J.PlainChars(text)));
  }

  lemma MemberOk(name: string, value: J.Json)
    requires J.CharsOk(J.PlainChars(name)) && J.Ok(value)
    ensures J.ItemOk(J.Object, Member(name, value))
  {
    assert J.Blank("");
  }

  /** A text of topic and tail as the clients begin their messages. */
  function Routable(topic: string, tail: string): string {
    PREFIX + "\"" + topic + "\"" + tail
  }

  lemma RoutableText(topic: string, tail: string)
    ensures "{" + ("\"" + "topic" + "\":" + ("\"" + topic + "\"")) + tail == Routable(topic, tail)
  {
    assert "{" + ("\"" + "topic" + "\":") == PREFIX;
  }

  lemma RoutableQueue(topic: string, tail: string)
    requires topic != ""
    ensures QueueOf(Routable(topic, tail)) == QueueFor(topic[0])
  {
    var text := Routable(topic, tail);
    assert |PREFIX| == 9;
    assert text[..|PREFIX|] == PREFIX && text[10] == topic[0];
  }

  /** The queues and the letters that their topics begin with. */
  predicate QueueNamed(letter: char, step: Step) {
    || (letter == 'L' && step == Logging)
    || (letter == 'M' && step == Monitoring)
    || (letter == 'T' && step == Rootplots)
    || (letter == 'P' && step == Plotlyplots)
  }

  /** Messages whose first member is the topic, without white space before its value and with anything
      after it: they are JSON, and go to the queue of their topic's first letter. */
  lemma TopicFirst(topic: string, others: Option<J.Items>) returns (text: string)
    requires topic != "" && J.CharsOk(J.PlainChars(topic))
    requires others.Some? ==> J.ItemsOk(J.Object, others.value)
    ensures text == Routable(topic, Tail(others)) && J.IsJson(text)
    ensures forall step :: QueueOf(text) == Some(step) <==> QueueNamed(topic[0], step)
  {
    text := J.Print(Beginning("topic", topic, others));
    MemberOk("topic", J.Text(J.PlainChars(topic)));
    assert J.Ok(Beginning("topic", topic, others));
    BeginningText("topic", topic, others);
    RoutableText(topic, Tail(others));
    RoutableQueue(topic, Tail(others));
  }

  /** Such a message alone in a batch: it is put into its queue's array, and read back from it. */
  lemma SingleMessage(text: string, unzip: Unzip, step: Step)
    requires J.IsJson(text) && !Compressed(text) && QueueOf(text) == Some(step)
    ensures Topical([text], unzip, step, 1) == [text]
    ensures ArrayOf([text]) == "[" + text + "]" && J.ReadArray(ArrayOf([text])) == Some([text])
  {
    assert Topical([text], unzip, step, 0) == [];
    QueueArrayReadsBack([text], unzip, step);
    assert [text][..0] == [];
    assert Filled([text]) == "[" + text;
  }

  lemma PrefixPlain(text: string)
    requires StartsWith(text, PREFIX)
    ensures !Compressed(text)
  {
    assert text[0] == text[..|PREFIX|][0] == '{';
  }

  const SEVERITY: J.Item := Member("severity", J.Number("", "1", "", ""))

  lemma SeverityText()
    ensures J.ItemsOk(J.Object, J.One(SEVERITY))
    ensures Tail(Some(J.One(SEVERITY))) == "," + ("\"" + "severity" + "\":" + "1") + "}"
  {
    var one := J.Number("", "1", "", "");
    MemberOk("severity", one);
    assert J.Print(one) == "1";
    MemberText("severity", one);
  }

  /** One of them, spelled out: {"topic":"LOGGING","severity":1}. */
  lemma LoggingMessage(unzip: Unzip) returns (text: string)
    ensures text == PREFIX + "\"" + "LOGGING" + "\"" + ("," + ("\"" + "severity" + "\":" + "1") + "}")
    ensures Topical([text], unzip, Logging, 1) == [text]
    ensures J.ReadArray(ArrayOf([text])) == Some([text])
  {
    SeverityText();
    text := TopicFirst("LOGGING", Some(J.One(SEVERITY)));
    PrefixPlain(text);
    SingleMessage(text, unzip, Logging);
  }
}
