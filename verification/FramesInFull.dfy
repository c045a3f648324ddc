/** Decoding a data frame, stated on its parts: the known transactions, each error, and the fields of every packet. */
module FramesInFull {
  import opened Wrappers
  import opened FrameCodec

  // The five transactions that are known, and how many fields a record of theirs has.
  lemma {:induction false} TransactionsInFull(trId: string)
    ensures SchemaOf(trId).Some? <==>
              trId == "H0STASP0" || trId == "H0STPGM0" || trId == "H0UNPGM0" || trId == "H0NXPGM0" || trId == "H0STCNT0"
    ensures SchemaOf("H0STASP0") == Some(OrderBook) && OrderBook.Width() == 59
    ensures SchemaOf("H0STPGM0") == SchemaOf("H0UNPGM0") == SchemaOf("H0NXPGM0") == Some(Program)
        && Program.Width() == 11
    ensures SchemaOf("H0STCNT0") == Some(Trade) && Trade.Width() == 46
  {
  }

  // A frame of four parts is refused for the first of these faults that it has: the flag, the transaction, the count,
  // and the number of fields.
  lemma {:induction false} ErrorsInFull(frame: string, receivedAt: int, sequence: Option<string>, parts: seq<string>)
    requires parts == SplitAtMost(frame, '|', 3)
    ensures |parts| <= 4
    ensures Decode(frame, receivedAt, sequence) == Err(NotFourParts) <==> |parts| < 4
    ensures |parts| == 4 && parts[0] != "0" ==> Decode(frame, receivedAt, sequence) == Err(Encrypted)
    ensures |parts| == 4 && parts[0] == "0" && SchemaOf(parts[1]).None? ==>
              Decode(frame, receivedAt, sequence) == Err(UnknownTr)
    ensures |parts| == 4 && parts[0] == "0" && SchemaOf(parts[1]).Some? ==>
              match ParseInt(parts[2])
              case None => Decode(frame, receivedAt, sequence) == Err(CountNotInteger)
              case Some(count) =>
                var fields := Split(parts[3], '^');
                && (count <= 0 ==> Decode(frame, receivedAt, sequence) == Err(CountNotPositive))
                && (count > 0 && |fields| != count * SchemaOf(parts[1]).value.Width() ==>
                      Decode(frame, receivedAt, sequence) == Err(SchemaDrift))
                && (count > 0 && |fields| == count * SchemaOf(parts[1]).value.Width() ==>
                      if receivedAt < 0 then Decode(frame, receivedAt, sequence) == Err(NegativeTime)
                      else Decode(frame, receivedAt, sequence).Ok?)
  {
    hide FirstPackets, Split, SplitAtMost, ParseInt, SchemaOf;
  }

  lemma {:induction false} HeaderIs(frame: string) returns (h: Header)
    requires ReadHeader(frame).Ok?
    ensures ReadHeader(frame) == Ok(h) && Readable(h)
    ensures var parts := SplitAtMost(frame, '|', 3);
            |parts| == 4 && h.trId == parts[1] && ParseInt(parts[2]) == Some(h.count)
                && h.values == Split(parts[3], '^')
  {
    hide Split, SplitAtMost, ParseInt, SchemaOf;
    h := ReadHeader(frame).value;
  }

  lemma {:induction false} PacketIs(h: Header, frame: string, receivedAt: int, sequence: Option<string>, i: nat,
      start: int)
    requires Readable(h) && i < h.count && start == i * h.schema.Width()
    ensures 0 <= start <= start + h.schema.Width() <= |h.values|
    ensures var p := PacketAt(h, frame, receivedAt, sequence, i);
            && p.trId == h.trId && p.schema == h.schema && p.values == h.values[start..start + h.schema.Width()]
            && p.rawFrame == frame && p.receivedAt == receivedAt
            && p.recordFrame == Join(["0", h.trId, "1", Join(p.values, '^')], '|')
            && (sequence.None? || h.count == 1 ==> p.sequence == sequence)
            && (sequence.Some? && h.count > 1 ==> p.sequence == Some(sequence.value + ":" + PrintNat(i)))
  {
    hide Join, PrintNat, SchemaOf;
    SliceAt(h.values, h.schema.Width(), h.count, i);
  }

  // Packet i of an accepted frame holds the i-th stretch of fields, as wide as its transaction's records, and a frame
  // of its own; with several records in the frame its sequence is told apart by i.
  lemma {:induction false} PacketsInFull(frame: string, receivedAt: int, sequence: Option<string>, i: nat)
      returns (count: nat, start: nat, fields: seq<string>)
    requires Decode(frame, receivedAt, sequence).Ok? && i < |Decode(frame, receivedAt, sequence).value|
    ensures |SplitAtMost(frame, '|', 3)| == 4 && fields == Split(SplitAtMost(frame, '|', 3)[3], '^')
    ensures ParseInt(SplitAtMost(frame, '|', 3)[2]) == Some(count) && receivedAt >= 0
    ensures var p, trId := Decode(frame, receivedAt, sequence).value[i], SplitAtMost(frame, '|', 3)[1];
            && |Decode(frame, receivedAt, sequence).value| == count
            && p.trId == trId && SchemaOf(trId) == Some(p.schema) && start == i * p.schema.Width()
            && start + p.schema.Width() <= |fields| && p.values == fields[start..start + p.schema.Width()]
            && p.rawFrame == frame && p.receivedAt == receivedAt
            && p.recordFrame == Join(["0", trId, "1", Join(p.values, '^')], '|')
            && (sequence.None? || count == 1 ==> p.sequence == sequence)
            && (sequence.Some? && count > 1 ==> p.sequence == Some(sequence.value + ":" + PrintNat(i)))
  {
    hide ReadHeader, FirstPackets, Split, SplitAtMost, ParseInt, SchemaOf, PacketAt, Join, PrintNat;
    var h := HeaderIs(frame);
    FirstPacketsCount(h, frame, receivedAt, sequence, h.count);
    FirstPacketsAt(h, frame, receivedAt, sequence, h.count, i);
    var at := i * h.schema.Width();
    PacketIs(h, frame, receivedAt, sequence, i, at);
    count, start, fields := h.count, at, h.values;
  }

  // What is stripped around a count.
  lemma {:induction false} BlanksInFull(c: char)
    ensures Blank(c) <==> c in " \t\n\r" || c as int == 11 || c as int == 12
  {
    assert c in " \t\n\r" <==> c == ' ' || c == '\t' || c == '\n' || c == '\r';
  }

  // A count may have a sign, digits, and single underscores between digits; one more digit multiplies by ten and adds.
  lemma {:induction false} CountsInFull(s: string, c: char, n: nat)
    requires ParseDigits(s) == Some(n) && '0' <= c <= '9'
    ensures ParseDigits(s + [c]) == Some(10 * n + (c as int - '0' as int))
    ensures ParseDigits(s + ['_', c]) == Some(10 * n + (c as int - '0' as int))
    ensures ParseDigits([c]) == Some(c as int - '0' as int) && ParseDigits("") == None
    ensures ParseDigits(s + ['_']) == None
  {
    var t, u := s + [c], s + ['_', c];
    assert t[|t| - 1] == c && t[|t| - 2] == s[|s| - 1] && t[..|t| - 1] == s;
    assert u[|u| - 1] == c && u[|u| - 2] == '_' && u[..|u| - 2] == s;
  }

  lemma {:induction false} NothingToStrip(s: string)
    requires s != [] && !Blank(s[0]) && !Blank(s[|s| - 1])
    ensures StripRight(StripLeft(s)) == s
  {
  }

  // Blanks around a count do not matter.
  lemma {:induction false} BlanksAround(s: string, c: char)
    requires Blank(c)
    ensures ParseInt([c] + s) == ParseInt(s) == ParseInt(s + [c])
  {
    assert ([c] + s)[1..] == s;
    StripsLast(s, c);
  }

  lemma {:induction false} StripsLast(s: string, c: char)
    requires Blank(c)
    ensures StripRight(StripLeft(s + [c])) == StripRight(StripLeft(s))
  {
    if s == [] {
      assert s + [c] == [c] && [c][1..] == [];
    } else if Blank(s[0]) {
      StripsLast(s[1..], c);
      assert (s + [c])[1..] == s[1..] + [c];
    } else {
      assert (s + [c])[0] == s[0] && (s + [c])[..|s|] == s;
    }
  }

  // Without blanks, a count is digits with or without a sign, and the sign tells a count from its negative.
  lemma {:induction false} SignsInFull(s: string)
    requires s != [] && !Blank(s[0]) && !Blank(s[|s| - 1])
    ensures ParseInt(s).Some? <==> ParseDigits(if s[0] == '+' || s[0] == '-' then s[1..] else s).Some?
    ensures ParseInt(s).Some? && s[0] == '-' ==> ParseInt(s).value + ParseDigits(s[1..]).value == 0
    ensures ParseInt(s).Some? && s[0] == '+' ==> ParseInt(s).value == ParseDigits(s[1..]).value
    ensures ParseInt(s).Some? && s[0] != '-' && s[0] != '+' ==> ParseInt(s).value == ParseDigits(s).value
    ensures ParseInt("") == None
  {
    NothingToStrip(s);
  }
}
