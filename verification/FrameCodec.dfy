/**
  The KIS data frame `0|TR_ID|record_count|field^field^...`: decoding into one packet per record, printing,
  and the packet's own consistency check.
 */
module FrameCodec {
  import opened Wrappers

  datatype Error =
    | NotFourParts | Encrypted | UnknownTr | CountNotInteger | CountNotPositive | SchemaDrift
    | WrongFields | FieldCount | NegativeTime | RecordFrameMismatch


  // The three ordered field lists, told apart by name; only their lengths matter to the codec.
  datatype Schema = OrderBook | Program | Trade
  {
    function Width(): nat {
      match this
      case OrderBook => 59
      case Program => 11
      case Trade => 46
    }
  }

  datatype Packet = Packet(
    trId: string, schema: Schema, values: seq<string>, rawFrame: string, recordFrame: string,
    receivedAt: int, sequence: Option<string>)

  function SchemaOf(trId: string): Option<Schema> {
    if trId == "H0STASP0" then Some(OrderBook)
    else if trId == "H0STPGM0" then Some(Program)
    else if trId == "H0UNPGM0" then Some(Program)
    else if trId == "H0NXPGM0" then Some(Program)
    else if trId == "H0STCNT0" then Some(Trade)
    else None
  }

  // ---------- splitting and joining ----------

  function IndexOf(s: string, c: char): (i: nat)
    ensures i <= |s| && (i < |s| ==> s[i] == c) && forall j :: 0 <= j < i ==> s[j] != c
  {
    if s == [] || s[0] == c then 0 else 1 + IndexOf(s[1..], c)
  }

  function Split(s: string, c: char): (parts: seq<string>)
    ensures |parts| >= 1
    decreases |s|
  {
    var i := IndexOf(s, c);
    if i == |s| then [s] else [s[..i]] + Split(s[i + 1..], c)
  }

  function SplitAtMost(s: string, c: char, most: nat): (parts: seq<string>)
    ensures 1 <= |parts| <= most + 1
  {
    var i := IndexOf(s, c);
    if most == 0 || i == |s| then [s] else [s[..i]] + SplitAtMost(s[i + 1..], c, most - 1)
  }

  function Join(parts: seq<string>, c: char): string {
    if parts == [] then ""
    else if |parts| == 1 then parts[0]
    else parts[0] + [c] + Join(parts[1..], c)
  }

  predicate Free(s: string, c: char) {
    c !in s
  }

  lemma {:induction false} JoinFirst(first: string, parts: seq<string>, c: char)
    requires parts != []
    ensures Join([first] + parts, c) == first + [c] + Join(parts, c)
  {
    assert ([first] + parts)[1..] == parts;
  }

  lemma {:induction false} JoinSplit(s: string, c: char)
    ensures Join(Split(s, c), c) == s
    decreases |s|
  {
    var i := IndexOf(s, c);
    if i < |s| {
      JoinSplit(s[i + 1..], c);
      JoinFirst(s[..i], Split(s[i + 1..], c), c);
      assert s == s[..i] + [c] + s[i + 1..];
    }
  }

  lemma {:induction false} IndexAfter(first: string, rest: string, c: char)
    requires Free(first, c)
    ensures IndexOf(first + [c] + rest, c) == |first|
    ensures (first + [c] + rest)[..|first|] == first && (first + [c] + rest)[|first| + 1..] == rest
  {
    var s := first + [c] + rest;
    if first != [] {
      assert first[0] in first && s[0] == first[0];
      assert s[1..] == first[1..] + [c] + rest;
      IndexAfter(first[1..], rest, c);
    }
  }

  lemma {:induction false} SplitFirst(first: string, rest: string, c: char)
    requires Free(first, c)
    ensures Split(first + [c] + rest, c) == [first] + Split(rest, c)
  {
    IndexAfter(first, rest, c);
  }

  lemma {:induction false} SplitJoin(parts: seq<string>, c: char)
    requires parts != [] && forall p :: p in parts ==> Free(p, c)
    ensures Split(Join(parts, c), c) == parts
  {
    assert parts[0] in parts;
    if |parts| == 1 {
    } else {
      SplitFirst(parts[0], Join(parts[1..], c), c);
      SplitJoin(parts[1..], c);
      assert parts == [parts[0]] + parts[1..];
    }
  }

  lemma {:induction false} SplitParts(s: string, c: char)
    ensures forall p :: p in Split(s, c) ==> Free(p, c)
    decreases |s|
  {
    var i := IndexOf(s, c);
    if i < |s| {
      SplitParts(s[i + 1..], c);
    }
  }

  lemma {:induction false} SplitHead(first: string, rest: string, c: char, most: nat)
    requires Free(first, c) && most > 0
    ensures SplitAtMost(first + [c] + rest, c, most) == [first] + SplitAtMost(rest, c, most - 1)
  {
    IndexAfter(first, rest, c);
  }

  // ---------- the record count ----------

  predicate IsDigit(c: char) {
    '0' <= c <= '9'
  }

  function Digit(c: char): nat
    requires IsDigit(c)
  {
    c as int - '0' as int
  }

  function DigitChar(d: nat): (c: char)
    requires d < 10
    ensures IsDigit(c) && Digit(c) == d
  {
    ('0' as int + d) as char
  }

  predicate Blank(c: char) {
    c == ' ' || c == '\t' || c == '\n' || c == '\r' || c == '\U{0B}' || c == '\U{0C}'
  }

  function StripLeft(s: string): string {
    if s != [] && Blank(s[0]) then StripLeft(s[1..]) else s
  }

  function StripRight(s: string): string {
    if s != [] && Blank(s[|s| - 1]) then StripRight(s[..|s| - 1]) else s
  }

  // Digits, with single underscores allowed between two of them.
  function ParseDigits(s: string): Option<nat> {
    if s == [] || !IsDigit(s[|s| - 1]) then None
    else if |s| == 1 then Some(Digit(s[0]))
    else
      var front := if s[|s| - 2] == '_' then s[..|s| - 2] else s[..|s| - 1];
      match ParseDigits(front)
      case None => None
      case Some(n) => Some(10 * n + Digit(s[|s| - 1]))
  }

  // Python's int of a decimal text.
  function ParseInt(text: string): Option<int> {
    var s := StripRight(StripLeft(text));
    if s == [] then None
    else if s[0] == '+' || s[0] == '-' then
      match ParseDigits(s[1..])
      case None => None
      case Some(n) =>
        var value: int := n;
        Some(if s[0] == '-' then -value else value)
    else
      match ParseDigits(s)
      case None => None
      case Some(n) => Some(n)
  }

  function PrintNat(n: nat): (s: string)
    ensures |s| > 0 && forall c :: c in s ==> IsDigit(c)
  {
    if n < 10 then [DigitChar(n)] else PrintNat(n / 10) + [DigitChar(n % 10)]
  }

  lemma {:induction false} ParsePrintedDigits(n: nat)
    ensures ParseDigits(PrintNat(n)) == Some(n)
  {
    if n >= 10 {
      var front := PrintNat(n / 10);
      ParsePrintedDigits(n / 10);
      var s := PrintNat(n);
      assert s == front + [DigitChar(n % 10)];
      assert s[|s| - 2] == front[|front| - 1] && front[|front| - 1] in front;
      assert s[..|s| - 1] == front;
    }
  }

  // A printed count reads back as itself.
  lemma {:induction false} ParsePrinted(n: nat)
    ensures ParseInt(PrintNat(n)) == Some(n)
  {
    var s := PrintNat(n);
    assert s[0] in s && s[|s| - 1] in s;
    ParsePrintedDigits(n);
  }

  lemma {:induction false} PrintIsInjective(m: nat, n: nat)
    requires PrintNat(m) == PrintNat(n)
    ensures m == n
  {
    ParsePrinted(m);
    ParsePrinted(n);
  }

  // ---------- records ----------

  function Flat(records: seq<seq<string>>): seq<string> {
    if records == [] then [] else records[0] + Flat(records[1..])
  }

  function Sliced(values: seq<string>, width: nat, count: nat): (records: seq<seq<string>>)
    requires |values| == count * width
    ensures |records| == count && forall r :: r in records ==> |r| == width
  {
    if count == 0 then []
    else
      OneWidth(count, width);
      [values[..width]] + Sliced(values[width..], width, count - 1)
  }

  lemma {:induction false} OneWidth(count: nat, width: nat)
    requires count > 0
    ensures width <= count * width && count * width - width == (count - 1) * width
  {
  }

  lemma {:induction false} FirstSlice(values: seq<string>, width: nat, count: nat)
    requires |values| == count * width && count > 0
    ensures width <= |values| && |values[width..]| == (count - 1) * width
    ensures Sliced(values, width, count) == [values[..width]] + Sliced(values[width..], width, count - 1)
  {
    OneWidth(count, width);
  }

  lemma {:induction false} NoSlices(values: seq<string>, width: nat)
    requires values == []
    ensures Flat(Sliced(values, width, 0)) == values
  {
  }

  lemma {:induction false} FlatCons(first: seq<string>, rest: seq<seq<string>>)
    ensures Flat([first] + rest) == first + Flat(rest)
  {
    assert ([first] + rest)[1..] == rest;
  }

  lemma {:induction false} FlatSliced(values: seq<string>, width: nat, count: nat)
    requires |values| == count * width
    ensures Flat(Sliced(values, width, count)) == values
  {
    hide Sliced, Flat;
    if count == 0 {
      NoSlices(values, width);
    } else {
      FirstSlice(values, width, count);
      FlatSliced(values[width..], width, count - 1);
      FlatCons(values[..width], Sliced(values[width..], width, count - 1));
      assert values == values[..width] + values[width..];
    }
  }

  lemma {:induction false} FlatLength(records: seq<seq<string>>, width: nat)
    requires forall r :: r in records ==> |r| == width
    ensures |Flat(records)| == |records| * width
  {
    if records != [] {
      assert records[0] in records;
      FlatLength(records[1..], width);
      OneWidth(|records|, width);
    }
  }

  lemma {:induction false} SlicedFlat(records: seq<seq<string>>, width: nat)
    requires forall r :: r in records ==> |r| == width
    ensures |Flat(records)| == |records| * width && Sliced(Flat(records), width, |records|) == records
  {
    FlatLength(records, width);
    if records != [] {
      var rest := records[1..];
      assert records == [records[0]] + rest;
      FlatLength(rest, width);
      SlicedFlat(rest, width);
    }
  }

  lemma {:induction false} FlatMembers(records: seq<seq<string>>, v: string)
    ensures v in Flat(records) <==> exists r :: r in records && v in r
  {
    if records != [] {
      FlatMembers(records[1..], v);
      assert records == [records[0]] + records[1..];
    }
  }

  // ---------- packets ----------

  function Frame(trId: string, count: string, payload: string): string {
    Join(["0", trId, count, payload], '|')
  }

  function RecordFrame(trId: string, values: seq<string>): string {
    Frame(trId, "1", Join(values, '^'))
  }

  // The checks a packet makes of itself.
  function Checked(p: Packet): Result<Packet, Error> {
    match SchemaOf(p.trId)
    case None => Err(UnknownTr)
    case Some(schema) =>
      if p.schema != schema then Err(WrongFields)
      else if |p.values| != schema.Width() then Err(FieldCount)
      else if p.receivedAt < 0 then Err(NegativeTime)
      else if p.recordFrame != RecordFrame(p.trId, p.values) then Err(RecordFrameMismatch)
      else Ok(p)
  }

  function SequenceOf(sequence: Option<string>, count: nat, index: nat): Option<string> {
    if sequence.Some? && count > 1 then Some(sequence.value + ":" + PrintNat(index)) else sequence
  }

  datatype Header = Header(trId: string, schema: Schema, count: nat, values: seq<string>)

  // Everything up to cutting the values into records.
  function ReadHeader(frame: string): Result<Header, Error> {
    var parts := SplitAtMost(frame, '|', 3);
    if |parts| != 4 then Err(NotFourParts)
    else if parts[0] != "0" then Err(Encrypted)
    else
      match SchemaOf(parts[1])
      case None => Err(UnknownTr)
      case Some(schema) =>
        match ParseInt(parts[2])
        case None => Err(CountNotInteger)
        case Some(count) =>
          if count <= 0 then Err(CountNotPositive)
          else
            var values := Split(parts[3], '^');
            if |values| != count * schema.Width() then Err(SchemaDrift)
            else Ok(Header(parts[1], schema, count, values))
  }

  predicate Readable(h: Header) {
    |h.values| == h.count * h.schema.Width() && h.count > 0 && SchemaOf(h.trId) == Some(h.schema)
  }

  lemma {:induction false} SliceAt(values: seq<string>, width: nat, count: nat, index: nat)
    requires |values| == count * width && index < count
    ensures 0 <= index * width && index * width + width <= |values|
    ensures Sliced(values, width, count)[index] == values[index * width..index * width + width]
  {
    OneWidth(count, width);
    if index == 0 {
      assert 0 * width == 0;
    } else {
      SliceAt(values[width..], width, count - 1, index - 1);
      OneWidth(index, width);
    }
  }

  function RecordAt(h: Header, index: nat): (values: seq<string>)
    requires Readable(h) && index < h.count
    ensures values == Sliced(h.values, h.schema.Width(), h.count)[index] && |values| == h.schema.Width()
  {
    SliceAt(h.values, h.schema.Width(), h.count, index);
    h.values[index * h.schema.Width()..index * h.schema.Width() + h.schema.Width()]
  }

  function PacketAt(h: Header, raw: string, receivedAt: int, sequence: Option<string>, index: nat): Packet
    requires Readable(h) && index < h.count
  {
    var values := RecordAt(h, index);
    Packet(h.trId, h.schema, values, raw, RecordFrame(h.trId, values), receivedAt, SequenceOf(sequence, h.count, index))
  }

  // The packets of the first k records.
  function FirstPackets(h: Header, raw: string, receivedAt: int, sequence: Option<string>, k: nat): (ps: seq<Packet>)
    requires Readable(h) && k <= h.count
  {
    if k == 0 then []
    else FirstPackets(h, raw, receivedAt, sequence, k - 1) + [PacketAt(h, raw, receivedAt, sequence, k - 1)]
  }

  lemma {:induction false} FirstPacketsCount(h: Header, raw: string, receivedAt: int, sequence: Option<string>, k: nat)
    requires Readable(h) && k <= h.count
    ensures |FirstPackets(h, raw, receivedAt, sequence, k)| == k
  {
    if k > 0 {
      FirstPacketsCount(h, raw, receivedAt, sequence, k - 1);
    }
  }

  lemma {:induction false} FirstPacketsAt(h: Header, raw: string, receivedAt: int, sequence: Option<string>, k: nat,
      i: nat)
    requires Readable(h) && i < k <= h.count
    ensures |FirstPackets(h, raw, receivedAt, sequence, k)| == k
    ensures FirstPackets(h, raw, receivedAt, sequence, k)[i] == PacketAt(h, raw, receivedAt, sequence, i)
  {
    FirstPacketsCount(h, raw, receivedAt, sequence, k);
    FirstPacketsCount(h, raw, receivedAt, sequence, k - 1);
    if i < k - 1 {
      FirstPacketsAt(h, raw, receivedAt, sequence, k - 1, i);
    }
  }

  function Decode(frame: string, receivedAt: int, sequence: Option<string>): Result<seq<Packet>, Error> {
    match ReadHeader(frame)
    case Err(e) => Err(e)
    case Ok(h) =>
      if receivedAt < 0 then Err(NegativeTime)
      else
        HeaderFits(frame);
        Ok(FirstPackets(h, frame, receivedAt, sequence, h.count))
  }

  lemma {:induction false} HeaderFits(frame: string)
    ensures ReadHeader(frame).Ok? ==>
              && Readable(ReadHeader(frame).value)
              && |SplitAtMost(frame, '|', 3)| == 4
                  && ReadHeader(frame).value.values == Split(SplitAtMost(frame, '|', 3)[3], '^')
  {
  }

  // The packet of one record, checked as it is built.
  method PacketFor(h: Header, frame: string, receivedAt: int, sequence: Option<string>, index: nat)
      returns (r: Result<Packet, Error>)
    requires Readable(h) && index < h.count
    ensures r == if receivedAt < 0 then Err(NegativeTime) else Ok(PacketAt(h, frame, receivedAt, sequence, index))
  {
    var width := h.schema.Width();
    SliceAt(h.values, width, h.count, index);
    var start := index * width;
    var values := h.values[start..start + width];
    var packet := Packet(h.trId, h.schema, values, frame, RecordFrame(h.trId, values), receivedAt,
        SequenceOf(sequence, h.count, index));
    r := Checked(packet);
  }

  // Of the packet's own checks only the one on a negative receipt time can fail.
  method DecodeDataFrame(frame: string, receivedAt: int, sequence: Option<string>)
      returns (r: Result<seq<Packet>, Error>)
    ensures r == Decode(frame, receivedAt, sequence)
  {
    var header := ReadHeader(frame);
    if header.Err? {
      return Err(header.error);
    }
    HeaderFits(frame);
    r := BuildPackets(header.value, frame, receivedAt, sequence);
  }

  method BuildPackets(h: Header, frame: string, receivedAt: int, sequence: Option<string>)
      returns (r: Result<seq<Packet>, Error>)
    requires Readable(h)
    ensures r == if receivedAt < 0 then Err(NegativeTime) else Ok(FirstPackets(h, frame, receivedAt, sequence, h.count))
  {
    var packets: seq<Packet> := [];
    for index := 0 to h.count
      invariant (index > 0 ==> receivedAt >= 0) && packets == FirstPackets(h, frame, receivedAt, sequence, index)
    {
      var packet := PacketFor(h, frame, receivedAt, sequence, index);
      if packet.Err? {
        return Err(packet.error);
      }
      packets := packets + [packet.value];
    }
    r := Ok(packets);
  }

  // ---------- round trips ----------

  function Print(trId: string, records: seq<seq<string>>): string {
    Frame(trId, PrintNat(|records|), Join(Flat(records), '^'))
  }

  lemma {:induction false} PrintedCountHasNoPipe(n: nat)
    ensures Free(PrintNat(n), '|')
  {
    assert !IsDigit('|');
  }

  // The printed form, spelled out.
  lemma {:induction false} FrameShape(trId: string, count: string, payload: string)
    ensures Frame(trId, count, payload) == "0" + ['|'] + (trId + ['|'] + (count + ['|'] + payload))
  {
    JoinFirst("0", [trId, count, payload], '|');
    JoinFirst(trId, [count, payload], '|');
    JoinFirst(count, [payload], '|');
    assert ["0", trId, count, payload] == ["0"] + [trId, count, payload];
    assert [trId, count, payload] == [trId] + [count, payload];
    assert [count, payload] == [count] + [payload];
  }

  // A frame splits back into its four parts, whatever the payload contains.
  lemma {:induction false} FrameParts(trId: string, count: string, payload: string)
    requires Free(trId, '|') && Free(count, '|')
    ensures SplitAtMost(Frame(trId, count, payload), '|', 3) == ["0", trId, count, payload]
  {
    FrameShape(trId, count, payload);
    SplitHead("0", trId + ['|'] + (count + ['|'] + payload), '|', 3);
    SplitHead(trId, count + ['|'] + payload, '|', 2);
    SplitHead(count, payload, '|', 1);
  }

  ghost predicate Printable(trId: string, records: seq<seq<string>>) {
    && records != [] && SchemaOf(trId).Some?
    && forall r :: r in records ==> |r| == SchemaOf(trId).value.Width() && forall v :: v in r ==> Free(v, '^')
  }

  lemma {:induction false} PrintedValues(trId: string, records: seq<seq<string>>)
    requires Printable(trId, records)
    ensures Split(Join(Flat(records), '^'), '^') == Flat(records)
        && |Flat(records)| == |records| * SchemaOf(trId).value.Width()
  {
    var width, flat := SchemaOf(trId).value.Width(), Flat(records);
    FlatLength(records, width);
    OneWidth(|records|, width);
    forall v | v in flat
      ensures Free(v, '^')
    {
      FlatMembers(records, v);
    }
    SplitJoin(flat, '^');
  }

  lemma {:induction false} HeaderOf(frame: string, trId: string, schema: Schema, text: string, count: nat,
      payload: string)
    requires SplitAtMost(frame, '|', 3) == ["0", trId, text, payload] && SchemaOf(trId) == Some(schema)
    requires ParseInt(text) == Some(count) && count > 0 && |Split(payload, '^')| == count * schema.Width()
    ensures ReadHeader(frame) == Ok(Header(trId, schema, count, Split(payload, '^')))
  {
  }

  lemma {:induction false} PrintedHeader(trId: string, records: seq<seq<string>>)
    requires Printable(trId, records)
    ensures ReadHeader(Print(trId, records)) == Ok(Header(trId, SchemaOf(trId).value, |records|, Flat(records)))
  {
    var n, payload := |records|, Join(Flat(records), '^');
    PrintedCountHasNoPipe(n);
    FrameParts(trId, PrintNat(n), payload);
    ParsePrinted(n);
    PrintedValues(trId, records);
    HeaderOf(Print(trId, records), trId, SchemaOf(trId).value, PrintNat(n), n, payload);
  }

  function ValuesOf(ps: seq<Packet>): (vs: seq<seq<string>>)
    ensures |vs| == |ps| && forall i :: 0 <= i < |vs| ==> vs[i] == ps[i].values
  {
    seq(|ps|, i requires 0 <= i < |ps| => ps[i].values)
  }

  lemma {:induction false} FirstPacketsValues(h: Header, raw: string, receivedAt: int, sequence: Option<string>)
    requires Readable(h)
    ensures ValuesOf(FirstPackets(h, raw, receivedAt, sequence, h.count)) == Sliced(h.values, h.schema.Width(), h.count)
  {
    var ps, records := FirstPackets(h, raw, receivedAt, sequence, h.count), Sliced(h.values, h.schema.Width(), h.count);
    FirstPacketsCount(h, raw, receivedAt, sequence, h.count);
    forall i | 0 <= i < h.count
      ensures ValuesOf(ps)[i] == records[i]
    {
      FirstPacketsAt(h, raw, receivedAt, sequence, h.count, i);
    }
  }

  // Decoding the printed frame of any records with caret-free fields returns those records.
  lemma {:induction false} DecodePrinted(trId: string, records: seq<seq<string>>, receivedAt: int,
      sequence: Option<string>)
    requires Printable(trId, records) && receivedAt >= 0
    ensures Decode(Print(trId, records), receivedAt, sequence).Ok?
    ensures ValuesOf(Decode(Print(trId, records), receivedAt, sequence).value) == records
  {
    hide ReadHeader, Print, Flat, Sliced, SplitAtMost, FirstPackets;
    PrintedHeader(trId, records);
    HeaderFits(Print(trId, records));
    SlicedFlat(records, SchemaOf(trId).value.Width());
    FirstPacketsValues(Header(trId, SchemaOf(trId).value, |records|, Flat(records)), Print(trId, records), receivedAt,
        sequence);
  }

  // What an accepted frame is made of.
  lemma {:induction false} DecodedIs(frame: string, receivedAt: int, sequence: Option<string>)
      returns (h: Header, payload: string)
    requires Decode(frame, receivedAt, sequence).Ok?
    ensures |SplitAtMost(frame, '|', 3)| == 4 && payload == SplitAtMost(frame, '|', 3)[3]
    ensures receivedAt >= 0 && Readable(h) && h.values == Split(payload, '^')
    ensures Decode(frame, receivedAt, sequence) == Ok(FirstPackets(h, frame, receivedAt, sequence, h.count))
  {
    HeaderFits(frame);
    h, payload := ReadHeader(frame).value, SplitAtMost(frame, '|', 3)[3];
  }

  // Joining the decoded values of an accepted frame rebuilds its payload.
  lemma {:induction false} DecodedRebuilds(frame: string, receivedAt: int, sequence: Option<string>)
    requires Decode(frame, receivedAt, sequence).Ok?
    ensures |SplitAtMost(frame, '|', 3)| == 4
    ensures Join(Flat(ValuesOf(Decode(frame, receivedAt, sequence).value)), '^') == SplitAtMost(frame, '|', 3)[3]
  {
    var h, payload := DecodedIs(frame, receivedAt, sequence);
    FirstPacketsValues(h, frame, receivedAt, sequence);
    FlatSliced(h.values, h.schema.Width(), h.count);
    JoinSplit(payload, '^');
  }

  lemma {:induction false} OneRecord(trId: string, values: seq<string>)
    ensures RecordFrame(trId, values) == Print(trId, [values])
  {
    assert Flat([values]) == values + Flat([values][1..]) && [values][1..] == [];
    assert Flat([values]) == values;
    assert DigitChar(1) == '1' && PrintNat(1) == [DigitChar(1)];
    assert PrintNat(1) == "1";
  }

  lemma {:induction false} RecordPrintable(h: Header, payload: string, i: nat)
    requires Readable(h) && i < h.count && h.values == Split(payload, '^')
    ensures Printable(h.trId, [RecordAt(h, i)])
  {
    SplitParts(payload, '^');
    SliceAt(h.values, h.schema.Width(), h.count, i);
  }

  // Every packet's record frame decodes, alone, to that same record.
  lemma {:induction false} RecordFrameDecodes(frame: string, receivedAt: int, sequence: Option<string>, i: nat,
      again: Option<string>)
    requires Decode(frame, receivedAt, sequence).Ok? && i < |Decode(frame, receivedAt, sequence).value|
    ensures var p := Decode(frame, receivedAt, sequence).value[i];
            Decode(p.recordFrame, receivedAt, again).Ok?
                && ValuesOf(Decode(p.recordFrame, receivedAt, again).value) == [p.values]
  {
    var h, payload := DecodedIs(frame, receivedAt, sequence);
    FirstPacketsCount(h, frame, receivedAt, sequence, h.count);
    FirstPacketsAt(h, frame, receivedAt, sequence, h.count, i);
    RecordPrintable(h, payload, i);
    OneRecord(h.trId, RecordAt(h, i));
    DecodePrinted(h.trId, [RecordAt(h, i)], receivedAt, again);
  }

  lemma {:induction false} SuffixesDiffer(sequence: string, i: nat, j: nat)
    requires i != j
    ensures sequence + ":" + PrintNat(i) != sequence + ":" + PrintNat(j)
  {
    var si, sj := sequence + ":" + PrintNat(i), sequence + ":" + PrintNat(j);
    var prefix := |sequence| + 1;
    assert si[prefix..] == PrintNat(i) && sj[prefix..] == PrintNat(j);
    if si == sj {
      PrintIsInjective(i, j);
    }
  }

  // Within one frame of several records the provider sequences are pairwise distinct.
  lemma {:induction false} SequencesDiffer(frame: string, receivedAt: int, sequence: Option<string>, i: nat, j: nat)
    requires Decode(frame, receivedAt, sequence).Ok? && sequence.Some?
    requires i < j < |Decode(frame, receivedAt, sequence).value|
    ensures Decode(frame, receivedAt, sequence).value[i].sequence != Decode(frame, receivedAt,
        sequence).value[j].sequence
  {
    var h, payload := DecodedIs(frame, receivedAt, sequence);
    FirstPacketsCount(h, frame, receivedAt, sequence, h.count);
    FirstPacketsAt(h, frame, receivedAt, sequence, h.count, i);
    FirstPacketsAt(h, frame, receivedAt, sequence, h.count, j);
    SuffixesDiffer(sequence.value, i, j);
  }

  // The packet check accepts whatever the decoder builds.
  lemma {:induction false} DecodedPacketsPass(frame: string, receivedAt: int, sequence: Option<string>, i: nat)
    requires Decode(frame, receivedAt, sequence).Ok? && i < |Decode(frame, receivedAt, sequence).value|
    ensures Checked(Decode(frame, receivedAt, sequence).value[i]) == Ok(Decode(frame, receivedAt, sequence).value[i])
  {
    var h, payload := DecodedIs(frame, receivedAt, sequence);
    FirstPacketsCount(h, frame, receivedAt, sequence, h.count);
    FirstPacketsAt(h, frame, receivedAt, sequence, h.count, i);
  }
}
