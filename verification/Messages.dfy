/** Queries as multipart messages: received as [client, message id, topic, query], answered as
    [client, message id, success, rows...] in the same slots. */
module Messages {
  import opened Workload

  /** A message part. `Undefined` is a value read from outside a vector. */
  datatype Part = Bytes(s: string) | U32(n: nat) | U16(n: nat) | Undefined

  /** A column of a result row: its name, its type code and its text. */
  datatype Field = Field(name: string, typ: nat, text: string)
  type Row = seq<Field>

  datatype ZmqQuery = ZmqQuery(parts: seq<Part>, decompressed: string, result: seq<Row>, err: string) {

    /** Four parts; the topic's third character selects the kind of query. */
    predicate Received() {
      && |parts| == 4
      && (forall k :: 0 <= k < 4 ==> parts[k].Bytes?)
      && |parts[2].s| > 2
    }

    function Letter(): char
      requires Received()
    {
      parts[2].s[2]
    }

    function Raw(): string
      requires Received()
    {
      parts[3].s
    }

    function Text(): string
      requires Received()
    {
      if Compressed(Raw()) then decompressed else Raw()
    }

    function SetSuccess(succeeded: bool): ZmqQuery
      requires |parts| > 2
    {
      this.(parts := parts[2 := U32(if succeeded then 1 else 0)])
    }

    function SetResponseRows(n: nat): ZmqQuery {
      this.(parts := if 3 + n <= |parts| then parts[..3 + n]
                     else parts + seq(3 + n - |parts|, k => Bytes("")))
    }

    function SetResponse(row: nat, value: Part): ZmqQuery
      requires row + 3 < |parts|
    {
      this.(parts := parts[row + 3 := value])
    }

    function Clear(): ZmqQuery {
      this.(result := [], err := "", decompressed := "")
    }

    /** The answer that the client finds in the success slot. */
    predicate Succeeded() {
      |parts| > 2 && parts[2] == U32(1)
    }
  }

  const MAGIC: string := [40 as char, 181 as char, 47 as char, 253 as char]

  predicate Compressed(raw: string) {
    |raw| > 4 && raw[..4] == MAGIC
  }

  /** What decompression makes of a compressed message. */
  datatype Unzipped = Text(s: string) | Bad(why: string)

  type Unzip = string -> Unzipped

  /** What the libraries do: compress a text, and hand out the fields of a result row or throw. */
  datatype Library = Library(zip: string -> string, readable: Row -> bool)

  predicate AllReadable(rows: seq<Row>, lib: Library) {
    forall k :: 0 <= k < |rows| ==> lib.readable(rows[k])
  }

  function Decode(q: ZmqQuery, unzip: Unzip): Unzipped
    requires q.Received()
  {
    if Compressed(q.Raw()) then unzip(q.Raw()) else Text(q.Raw())
  }

  /** The kinds of write query. */
  datatype Topic = Batched(table: Table) | Generics | Unknown

  function TopicOf(letter: char): Topic {
    if letter == 'A' then Batched(Alarm)
    else if letter == 'D' then Batched(DevConfig)
    else if letter == 'B' then Batched(BaseConfig)
    else if letter == 'R' then Batched(RunmodeConfig)
    else if letter == 'C' then Batched(Calibration)
    else if letter == 'P' then Batched(Plotlyplot)
    else if letter == 'T' then Batched(Rootplot)
    else if letter == 'Q' then Topic.Generics
    else Unknown
  }

  /** The third character of a topic, and the table whose array takes its queries. */
  predicate Names(letter: char, t: Table) {
    || (letter == 'A' && t == Alarm)
    || (letter == 'D' && t == DevConfig)
    || (letter == 'B' && t == BaseConfig)
    || (letter == 'R' && t == RunmodeConfig)
    || (letter == 'C' && t == Calibration)
    || (letter == 'T' && t == Rootplot)
    || (letter == 'P' && t == Plotlyplot)
  }

  lemma NamesExact(letter: char)
    ensures forall t: Table :: Names(letter, t) <==> TopicOf(letter) == Batched(t)
  {
  }

  const CACHED_CONFIG: char := 'K'
}
