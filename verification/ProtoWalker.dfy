/**
 The protobuf walker: base-128 varints and a cursor loop over the fields of a
 message. Shifts and masks on non-negative integers are written as the
 multiplications and remainders they are.
 */
module ProtoWalker {
  import opened Wrappers

  const MAX_VARINT_BYTES: nat := 10

  datatype Field =
    | Varint(number: nat, value: nat)
    | Bytes(number: nat, bytes: seq<Byte>)
    | Skipped(number: nat)

  datatype WalkError = MalformedVarint | InvalidNumber | PastTheEnd | TruncatedFixed | UnsupportedWire

  // ---------------------------------------------------------------------
  // Varints
  // ---------------------------------------------------------------------

  datatype VarintRead = VarintRead(value: nat, next: nat)

  /** The groups from index `at` on, least significant first, of which at most `left` are read. */
  function ReadGroups(m: seq<Byte>, at: nat, left: nat): (r: Option<VarintRead>)
    ensures r.Some? ==> at < r.value.next <= |m| && r.value.next <= at + left
    decreases left
  {
    if left == 0 || at >= |m| then None
    else if m[at] < 128 then Some(VarintRead(m[at], at + 1))
    else Scaled(m[at] - 128, 128, ReadGroups(m, at + 1, left - 1))
  }

  function Scaled(value: nat, weight: nat, r: Option<VarintRead>): Option<VarintRead> {
    match r
    case None => None
    case Some(rest) => Some(VarintRead(value + weight * rest.value, rest.next))
  }

  function ReadVarint(m: seq<Byte>, start: nat): (r: Option<VarintRead>)
    ensures r.Some? ==> start < r.value.next <= |m| && r.value.next <= start + MAX_VARINT_BYTES
  {
    ReadGroups(m, start, MAX_VARINT_BYTES)
  }

  /** One more group: `low` at the position that weighs `weight`. */
  function WithGroup(value: nat, low: nat, weight: nat): nat {
    value + low * weight
  }

  lemma ScaleTwice(value: nat, weight: nat, low: nat, r: Option<VarintRead>)
    ensures Scaled(value, weight, Scaled(low, 128, r)) == Scaled(WithGroup(value, low, weight), weight * 128, r)
  {
    if r.Some? {
      assert weight * (low + 128 * r.value.value) == low * weight + weight * 128 * r.value.value;
    }
  }

  /** varint, as the loop over at most ten groups. */
  method VarintLoop(m: seq<Byte>, start: nat) returns (r: Option<VarintRead>)
    ensures r == ReadVarint(m, start)
  {
    hide Scaled, WithGroup;
    var value: nat, weight: nat := 0, 1;
    var index := 0;
    ScaledIdentity(ReadVarint(m, start));
    while index < MAX_VARINT_BYTES
      invariant 0 <= index <= MAX_VARINT_BYTES
      invariant ReadVarint(m, start) == Scaled(value, weight, ReadGroups(m, start + index, MAX_VARINT_BYTES - index))
    {
      var at := start + index;
      if at >= |m| {
        break;
      }
      var byte: int := m[at];
      var low: nat := byte % 128;
      if byte < 128 {
        ScaledSome(value, weight, VarintRead(byte, at + 1));
        return Some(VarintRead(WithGroup(value, low, weight), at + 1));
      }
      ScaleTwice(value, weight, low, ReadGroups(m, at + 1, MAX_VARINT_BYTES - index - 1));
      value := WithGroup(value, low, weight);
      weight := weight * 128;
      index := index + 1;
    }
    ScaledNone(value, weight);
    r := None;
  }

  lemma ScaledIdentity(r: Option<VarintRead>)
    ensures Scaled(0, 1, r) == r
  {
  }

  lemma ScaledNone(value: nat, weight: nat)
    ensures Scaled(value, weight, None) == None
  {
  }

  lemma ScaledSome(value: nat, weight: nat, r: VarintRead)
    ensures Scaled(value, weight, Some(r)) == Some(VarintRead(WithGroup(value, r.value, weight), r.next))
  {
  }

  // ---------------------------------------------------------------------
  // The walk
  // ---------------------------------------------------------------------

  /** One turn of the loop: the field at the cursor and where the next one begins. */
  datatype Turn = Turn(field: Field, next: nat) | Stuck(error: WalkError)

  function NextField(m: seq<Byte>, cursor: nat): (t: Turn)
    requires cursor < |m|
    ensures t.Turn? ==> cursor < t.next <= |m|
  {
    var tag := ReadVarint(m, cursor);
    if tag.None? then Stuck(MalformedVarint)
    else
      var at, number, wire := tag.value.next, tag.value.value / 8, tag.value.value % 8;
      if number <= 0 then Stuck(InvalidNumber)
      else if wire == 0 then
        var value := ReadVarint(m, at);
        if value.None? then Stuck(MalformedVarint) else Turn(Varint(number, value.value.value), value.value.next)
      else if wire == 2 then
        var length := ReadVarint(m, at);
        if length.None? then Stuck(MalformedVarint)
        else
          var end := length.value.next + length.value.value;
          if end > |m| then Stuck(PastTheEnd) else Turn(Bytes(number, m[length.value.next..end]), end)
      else if wire == 1 || wire == 5 then
        var width := if wire == 1 then 8 else 4;
        if at + width > |m| then Stuck(TruncatedFixed) else Turn(Skipped(number), at + width)
      else Stuck(UnsupportedWire)
  }

  /** What the generator yields before it ends, and the error it ends in, if any. */
  datatype Walk = Walk(fields: seq<Field>, error: Option<WalkError>)

  function WalkFrom(m: seq<Byte>, cursor: nat): Walk
    requires cursor <= |m|
    decreases |m| - cursor
  {
    if cursor == |m| then Walk([], None)
    else
      match NextField(m, cursor)
      case Stuck(error) => Walk([], Some(error))
      case Turn(field, next) =>
        var rest := WalkFrom(m, next);
        Walk([field] + rest.fields, rest.error)
  }

  function Fields(m: seq<Byte>): Walk {
    WalkFrom(m, 0)
  }

  /** The body of the generator's loop. */
  method FieldAt(m: seq<Byte>, start: nat) returns (t: Turn)
    requires start < |m|
    ensures t == NextField(m, start)
  {
    hide ReadVarint;
    var cursor: nat := start;
    var tag := VarintLoop(m, cursor);
    if tag.None? {
      return Stuck(MalformedVarint);
    }
    cursor := tag.value.next;
    var number, wire := tag.value.value / 8, tag.value.value % 8;
    if number <= 0 {
      return Stuck(InvalidNumber);
    }
    if wire == 0 {
      var value := VarintLoop(m, cursor);
      if value.None? {
        return Stuck(MalformedVarint);
      }
      return Turn(Varint(number, value.value.value), value.value.next);
    }
    if wire == 2 {
      var length := VarintLoop(m, cursor);
      if length.None? {
        return Stuck(MalformedVarint);
      }
      var end := length.value.next + length.value.value;
      if end > |m| {
        return Stuck(PastTheEnd);
      }
      return Turn(Bytes(number, m[length.value.next..end]), end);
    }
    if wire == 1 || wire == 5 {
      var width := if wire == 1 then 8 else 4;
      if cursor + width > |m| {
        return Stuck(TruncatedFixed);
      }
      cursor := cursor + width;
      return Turn(Skipped(number), cursor);
    }
    t := Stuck(UnsupportedWire);
  }

  /** The generator, drained: it ends on every byte string. */
  method FieldsLoop(m: seq<Byte>) returns (walk: Walk)
    ensures walk == Fields(m)
  {
    hide NextField;
    var yielded: seq<Field> := [];
    var cursor := 0;
    while cursor < |m|
      invariant 0 <= cursor <= |m|
      invariant Fields(m) == Walk(yielded + WalkFrom(m, cursor).fields, WalkFrom(m, cursor).error)
    {
      var turn := FieldAt(m, cursor);
      if turn.Stuck? {
        return Walk(yielded, Some(turn.error));
      }
      yielded := yielded + [turn.field];
      cursor := turn.next;
    }
    walk := Walk(yielded, None);
  }

  // ---------------------------------------------------------------------
  // Walking a part of a message
  // ---------------------------------------------------------------------

  lemma {:induction false} GroupsShift(a: seq<Byte>, b: seq<Byte>, at: nat, left: nat)
    ensures ReadGroups(a + b, |a| + at, left) ==
            match ReadGroups(b, at, left) { case None => None case Some(r) => Some(r.(next := |a| + r.next)) }
    decreases left
  {
    if left > 0 && at < |b| {
      GroupsShift(a, b, at + 1, left - 1);
      assert (a + b)[|a| + at] == b[at];
    }
  }

  lemma {:induction false} GroupsAreLocal(a: seq<Byte>, b: seq<Byte>, at: nat, left: nat)
    requires ReadGroups(a, at, left).Some?
    ensures ReadGroups(a + b, at, left) == ReadGroups(a, at, left)
    decreases left
  {
    if left > 0 && at < |a| && a[at] >= 128 {
      GroupsAreLocal(a, b, at + 1, left - 1);
    }
  }

  function ShiftTurn(t: Turn, offset: nat): Turn {
    if t.Turn? then t.(next := offset + t.next) else t
  }

  /** Whatever came before the cursor does not matter. */
  lemma TurnShift(a: seq<Byte>, b: seq<Byte>, cursor: nat)
    requires cursor < |b|
    ensures NextField(a + b, |a| + cursor) == ShiftTurn(NextField(b, cursor), |a|)
  {
    hide ReadGroups;
    GroupsShift(a, b, cursor, MAX_VARINT_BYTES);
    var tag := ReadVarint(b, cursor);
    if tag.Some? {
      GroupsShift(a, b, tag.value.next, MAX_VARINT_BYTES);
      var length := ReadVarint(b, tag.value.next);
      if length.Some? && length.value.next + length.value.value <= |b| {
        var from, to := length.value.next, length.value.next + length.value.value;
        assert (a + b)[|a| + from..|a| + to] == b[from..to];
      }
    }
  }

  /** A field that is complete does not depend on what follows. */
  lemma TurnIsLocal(a: seq<Byte>, b: seq<Byte>, cursor: nat)
    requires cursor < |a| && NextField(a, cursor).Turn?
    ensures NextField(a + b, cursor) == NextField(a, cursor)
  {
    hide ReadGroups;
    GroupsAreLocal(a, b, cursor, MAX_VARINT_BYTES);
    var tag := ReadVarint(a, cursor);
    if tag.value.value % 8 in {0, 2} {
      GroupsAreLocal(a, b, tag.value.next, MAX_VARINT_BYTES);
      var length := ReadVarint(a, tag.value.next);
      if tag.value.value % 8 == 2 {
        var from, to := length.value.next, length.value.next + length.value.value;
        assert (a + b)[from..to] == a[from..to];
      }
    }
  }

  lemma {:induction false} WalkShift(a: seq<Byte>, b: seq<Byte>, cursor: nat)
    requires cursor <= |b|
    ensures WalkFrom(a + b, |a| + cursor) == WalkFrom(b, cursor)
    decreases |b| - cursor
  {
    hide NextField;
    if cursor < |b| {
      TurnShift(a, b, cursor);
      if NextField(b, cursor).Turn? {
        WalkShift(a, b, NextField(b, cursor).next);
      }
    }
  }

  lemma {:induction false} WalkConcatFrom(a: seq<Byte>, b: seq<Byte>, cursor: nat)
    requires cursor <= |a| && WalkFrom(a, cursor).error.None?
    ensures WalkFrom(a + b, cursor) == Walk(WalkFrom(a, cursor).fields + Fields(b).fields, Fields(b).error)
    decreases |a| - cursor
  {
    hide NextField;
    if cursor == |a| {
      WalkShift(a, b, 0);
    } else {
      TurnIsLocal(a, b, cursor);
      var field := NextField(a, cursor).field;
      var next := NextField(a, cursor).next;
      WalkConcatFrom(a, b, next);
      assert [field] + (WalkFrom(a, next).fields + Fields(b).fields) ==
          ([field] + WalkFrom(a, next).fields) + Fields(b).fields;
    }
  }

  /** If a parses, walking a followed by b is walking a and then walking b, errors included. */
  lemma WalkIsHomomorphic(a: seq<Byte>, b: seq<Byte>)
    requires Fields(a).error.None?
    ensures Fields(a + b) == Walk(Fields(a).fields + Fields(b).fields, Fields(b).error)
  {
    WalkConcatFrom(a, b, 0);
  }

  // ---------------------------------------------------------------------
  // Records
  // ---------------------------------------------------------------------

  /** The stretches of the message its fields were read from. */
  function RecordsFrom(m: seq<Byte>, cursor: nat): seq<seq<Byte>>
    requires cursor <= |m|
    decreases |m| - cursor
  {
    if cursor == |m| || NextField(m, cursor).Stuck? then []
    else
      var next := NextField(m, cursor).next;
      [m[cursor..next]] + RecordsFrom(m, next)
  }

  function ConsumedFrom(m: seq<Byte>, cursor: nat): nat
    requires cursor <= |m|
    decreases |m| - cursor
  {
    if cursor == |m| || NextField(m, cursor).Stuck? then cursor else ConsumedFrom(m, NextField(m, cursor).next)
  }

  function Concat(parts: seq<seq<Byte>>): seq<Byte> {
    if parts == [] then [] else parts[0] + Concat(parts[1..])
  }

  /** A record holds its field and nothing else, and the payload of a delimited field is its tail. */
  ghost predicate RecordOf(record: seq<Byte>, field: Field) {
    && Fields(record) == Walk([field], None)
    && (field.Bytes? ==> |field.bytes| <= |record| && record[|record| - |field.bytes|..] == field.bytes)
  }

  lemma TurnMakesRecord(m: seq<Byte>, cursor: nat)
    requires cursor < |m| && NextField(m, cursor).Turn?
    ensures RecordOf(m[cursor..NextField(m, cursor).next], NextField(m, cursor).field)
  {
    var next := NextField(m, cursor).next;
    var tail, record := m[cursor..], m[cursor..next];
    assert m == m[..cursor] + tail;
    TurnShift(m[..cursor], tail, 0);
    assert record == tail[..next - cursor];
    TurnOfPrefix(tail, next - cursor);
    assert WalkFrom(record, |record|) == Walk([], None);
  }

  lemma {:induction false} GroupsOfPrefix(m: seq<Byte>, at: nat, left: nat, n: nat)
    requires n <= |m|
    requires ReadGroups(m, at, left).Some? && ReadGroups(m, at, left).value.next <= n
    ensures ReadGroups(m[..n], at, left) == ReadGroups(m, at, left)
    decreases left
  {
    if left > 0 && at < |m| && m[at] >= 128 {
      GroupsOfPrefix(m, at + 1, left - 1, n);
    }
  }

  lemma TurnOfPrefix(m: seq<Byte>, n: nat)
    requires 0 < n <= |m| && NextField(m, 0).Turn? && NextField(m, 0).next == n
    ensures NextField(m[..n], 0) == NextField(m, 0)
    ensures var field := NextField(m, 0).field;
            field.Bytes? ==> |field.bytes| <= n && m[..n][n - |field.bytes|..] == field.bytes
  {
    hide ReadGroups;
    GroupsOfPrefix(m, 0, MAX_VARINT_BYTES, n);
    var tag := ReadVarint(m, 0);
    if tag.value.value % 8 in {0, 2} {
      GroupsOfPrefix(m, tag.value.next, MAX_VARINT_BYTES, n);
      var length := ReadVarint(m, tag.value.next);
      if tag.value.value % 8 == 2 {
        assert m[..n][length.value.next..n] == m[length.value.next..n];
      }
    }
  }

  /**
   The records partition what is consumed, one for each field yielded; all of it is consumed
   unless there is an error.
   */
  lemma {:induction false} RecordsPartition(m: seq<Byte>, cursor: nat)
    requires cursor <= |m|
    ensures var records, fields := RecordsFrom(m, cursor), WalkFrom(m, cursor).fields;
            && cursor <= ConsumedFrom(m, cursor) <= |m|
            && Concat(records) == m[cursor..ConsumedFrom(m, cursor)]
            && |records| == |fields|
            && (forall i | 0 <= i < |fields| :: RecordOf(records[i], fields[i]))
            && (WalkFrom(m, cursor).error.None? <==> ConsumedFrom(m, cursor) == |m|)
    decreases |m| - cursor
  {
    hide NextField, RecordOf;
    if cursor < |m| && NextField(m, cursor).Turn? {
      var next := NextField(m, cursor).next;
      RecordsPartition(m, next);
      TurnMakesRecord(m, cursor);
      assert m[cursor..next] + m[next..ConsumedFrom(m, next)] == m[cursor..ConsumedFrom(m, next)];
    }
  }

  // ---------------------------------------------------------------------
  // The encoder
  // ---------------------------------------------------------------------

  datatype Record =
    | VarintRecord(number: nat, value: nat)
    | BytesRecord(number: nat, bytes: seq<Byte>)
    | Fixed64Record(number: nat, raw: seq<Byte>)
    | Fixed32Record(number: nat, raw: seq<Byte>)

  function Pow128(k: nat): nat {
    if k == 0 then 1 else 128 * Pow128(k - 1)
  }

  /** What ten groups can carry; every 64-bit value is below it. */
  predicate Encodable(value: nat) {
    value < Pow128(MAX_VARINT_BYTES)
  }

  lemma SixtyFourBitsAreEncodable(value: nat)
    requires value < 0x1_0000_0000_0000_0000
    ensures Encodable(value)
  {
    assert Pow128(10) == 128 * 128 * Pow128(8) == 128 * 128 * 128 * 128 * Pow128(6);
    assert Pow128(6) == 128 * 128 * Pow128(4) == 128 * 128 * 128 * 128 * Pow128(2);
    assert Pow128(2) == 128 * 128;
  }

  predicate WellFormed(r: Record) {
    && r.number >= 1
    && Encodable(r.number * 8 + 7)
    && (r.VarintRecord? ==> Encodable(r.value))
    && (r.BytesRecord? ==> Encodable(|r.bytes|))
    && (r.Fixed64Record? ==> |r.raw| == 8)
    && (r.Fixed32Record? ==> |r.raw| == 4)
  }

  function EncodeVarint(value: nat): (e: seq<Byte>)
    ensures e != []
  {
    if value < 128 then [value] else [value % 128 + 128] + EncodeVarint(value / 128)
  }

  function EncodeRecord(r: Record): seq<Byte> {
    match r
    case VarintRecord(n, value) => EncodeVarint(n * 8) + EncodeVarint(value)
    case Fixed64Record(n, raw) => EncodeVarint(n * 8 + 1) + raw
    case BytesRecord(n, bytes) => EncodeVarint(n * 8 + 2) + (EncodeVarint(|bytes|) + bytes)
    case Fixed32Record(n, raw) => EncodeVarint(n * 8 + 5) + raw
  }

  function FieldOf(r: Record): Field {
    match r
    case VarintRecord(n, value) => Varint(n, value)
    case BytesRecord(n, bytes) => Bytes(n, bytes)
    case _ => Skipped(r.number)
  }

  function EncodeAll(rs: seq<Record>): seq<Byte> {
    if rs == [] then [] else EncodeRecord(rs[0]) + EncodeAll(rs[1..])
  }

  function FieldsOf(rs: seq<Record>): seq<Field> {
    if rs == [] then [] else [FieldOf(rs[0])] + FieldsOf(rs[1..])
  }

  lemma {:induction false} GroupsUndoEncode(value: nat, rest: seq<Byte>, left: nat)
    requires left >= 1 && value < Pow128(left)
    ensures ReadGroups(EncodeVarint(value) + rest, 0, left) == Some(VarintRead(value, |EncodeVarint(value)|))
    decreases left
  {
    var e := EncodeVarint(value);
    if value >= 128 {
      assert left > 1 && value / 128 < Pow128(left - 1);
      var tail := EncodeVarint(value / 128);
      GroupsUndoEncode(value / 128, rest, left - 1);
      GroupsShift([e[0]], tail + rest, 0, left - 1);
      assert e + rest == [e[0]] + (tail + rest);
    }
  }

  /** A varint is read back whatever surrounds it. */
  lemma VarintRoundTrip(before: seq<Byte>, value: nat, rest: seq<Byte>)
    requires Encodable(value)
    ensures ReadVarint(before + (EncodeVarint(value) + rest), |before|) ==
            Some(VarintRead(value, |before| + |EncodeVarint(value)|))
  {
    hide EncodeVarint;
    GroupsUndoEncode(value, rest, MAX_VARINT_BYTES);
    GroupsShift(before, EncodeVarint(value) + rest, 0, MAX_VARINT_BYTES);
  }

  lemma EncodableTag(number: nat, wire: nat)
    requires Encodable(number * 8 + 7) && wire < 8
    ensures Encodable(number * 8 + wire) && (number * 8 + wire) / 8 == number && (number * 8 + wire) % 8 == wire
  {
  }

  lemma TagIsRead(number: nat, wire: nat, body: seq<Byte>)
    requires Encodable(number * 8 + 7) && wire < 8
    ensures var tag := EncodeVarint(number * 8 + wire);
            && ReadVarint(tag + body, 0) == Some(VarintRead(number * 8 + wire, |tag|))
            && (number * 8 + wire) / 8 == number && (number * 8 + wire) % 8 == wire
  {
    hide ReadVarint, EncodeVarint, Encodable;
    EncodableTag(number, wire);
    var tag := EncodeVarint(number * 8 + wire);
    VarintRoundTrip([], number * 8 + wire, body);
    assert [] + (tag + body) == tag + body;
  }

  lemma VarintIsNext(number: nat, value: nat)
    requires WellFormed(VarintRecord(number, value))
    ensures var e := EncodeRecord(VarintRecord(number, value)); NextField(e, 0) == Turn(Varint(number, value), |e|)
  {
    hide ReadVarint, EncodeVarint, Encodable;
    var tag, body := EncodeVarint(number * 8), EncodeVarint(value);
    TagIsRead(number, 0, body);
    VarintRoundTrip(tag, value, []);
    assert body + [] == body;
  }

  lemma BytesAreNext(number: nat, bytes: seq<Byte>)
    requires WellFormed(BytesRecord(number, bytes))
    ensures var e := EncodeRecord(BytesRecord(number, bytes)); NextField(e, 0) == Turn(Bytes(number, bytes), |e|)
  {
    hide ReadVarint, EncodeVarint, Encodable;
    var tag, length := EncodeVarint(number * 8 + 2), EncodeVarint(|bytes|);
    TagIsRead(number, 2, length + bytes);
    VarintRoundTrip(tag, |bytes|, bytes);
    var e, from := tag + (length + bytes), |tag| + |length|;
    assert e[from..from + |bytes|] == bytes;
  }

  lemma FixedIsNext(r: Record)
    requires WellFormed(r) && (r.Fixed64Record? || r.Fixed32Record?)
    ensures var e := EncodeRecord(r); NextField(e, 0) == Turn(Skipped(r.number), |e|)
  {
    hide ReadVarint, EncodeVarint, Encodable;
    TagIsRead(r.number, if r.Fixed64Record? then 1 else 5, r.raw);
  }

  /** One record is read back as its field, alone in a message. */
  lemma RecordRoundTrip(r: Record)
    requires WellFormed(r)
    ensures Fields(EncodeRecord(r)) == Walk([FieldOf(r)], None)
  {
    match r {
      case VarintRecord(number, value) => VarintIsNext(number, value);
      case BytesRecord(number, bytes) => BytesAreNext(number, bytes);
      case _ => FixedIsNext(r);
    }
    hide NextField, EncodeRecord, WellFormed;
    var e := EncodeRecord(r);
    assert NextField(e, 0) == Turn(FieldOf(r), |e|);
    assert WalkFrom(e, |e|) == Walk([], None);
  }

  /** What the two numbers of a tag decide, with every way to fail. */
  lemma TagsDecide(number: nat, wire: nat, rest: seq<Byte>)
    requires Encodable(number * 8 + 7) && wire < 8
    ensures var tag := EncodeVarint(number * 8 + wire);
            var m, n := tag + rest, ReadVarint(rest, 0);
            && (number == 0 ==> NextField(m, 0) == Stuck(InvalidNumber))
            && (number > 0 && wire in {3, 4, 6, 7} ==> NextField(m, 0) == Stuck(UnsupportedWire))
            && (number > 0 && wire in {1, 5} ==>
                  var width := if wire == 1 then 8 else 4;
                  NextField(m, 0) ==
                  if |rest| < width then Stuck(TruncatedFixed) else Turn(Skipped(number), |tag| + width))
            && (number > 0 && wire == 0 ==>
                  NextField(m, 0) == if n.None? then Stuck(MalformedVarint)
                                     else Turn(Varint(number, n.value.value), |tag| + n.value.next))
            && (number > 0 && wire == 2 ==>
                  NextField(m, 0) ==
                  if n.None? then Stuck(MalformedVarint)
                  else if n.value.next + n.value.value > |rest| then Stuck(PastTheEnd)
                  else Turn(Bytes(number, rest[n.value.next..n.value.next + n.value.value]),
                            |tag| + n.value.next + n.value.value))
  {
    TagIsRead(number, wire, rest);
    hide ReadVarint, EncodeVarint, Encodable;
    if number > 0 && wire == 0 {
      VarintTagDecides(number, rest);
    } else if number > 0 && wire == 2 {
      BytesTagDecides(number, rest);
    }
  }

  /** A varint behind a tag is the varint alone, further on. */
  lemma VarintBehind(tag: seq<Byte>, rest: seq<Byte>)
    ensures ReadVarint(tag + rest, |tag|) ==
            match ReadVarint(rest, 0) { case None => None case Some(r) => Some(r.(next := |tag| + r.next)) }
  {
    GroupsShift(tag, rest, 0, MAX_VARINT_BYTES);
  }

  lemma VarintTagDecides(number: nat, rest: seq<Byte>)
    requires Encodable(number * 8 + 7) && number > 0
    ensures var tag, n := EncodeVarint(number * 8 + 0), ReadVarint(rest, 0);
            NextField(tag + rest, 0) == if n.None? then Stuck(MalformedVarint)
                                        else Turn(Varint(number, n.value.value), |tag| + n.value.next)
  {
    TagIsRead(number, 0, rest);
    hide ReadVarint, EncodeVarint, Encodable;
    VarintBehind(EncodeVarint(number * 8 + 0), rest);
  }

  lemma BytesTagDecides(number: nat, rest: seq<Byte>)
    requires Encodable(number * 8 + 7) && number > 0
    ensures var tag, n := EncodeVarint(number * 8 + 2), ReadVarint(rest, 0);
            NextField(tag + rest, 0) ==
            if n.None? then Stuck(MalformedVarint)
            else if n.value.next + n.value.value > |rest| then Stuck(PastTheEnd)
            else Turn(Bytes(number, rest[n.value.next..n.value.next + n.value.value]),
                      |tag| + n.value.next + n.value.value)
  {
    TagIsRead(number, 2, rest);
    hide ReadVarint, EncodeVarint, Encodable, NextField;
    PayloadAfterTag(EncodeVarint(number * 8 + 2), rest, number * 8 + 2, number);
  }

  lemma PayloadAfterTag(tag: seq<Byte>, rest: seq<Byte>, t: nat, number: nat)
    requires tag != [] && ReadVarint(tag + rest, 0) == Some(VarintRead(t, |tag|))
    requires t / 8 == number > 0 && t % 8 == 2
    ensures var n := ReadVarint(rest, 0);
            NextField(tag + rest, 0) ==
            if n.None? then Stuck(MalformedVarint)
            else if n.value.next + n.value.value > |rest| then Stuck(PastTheEnd)
            else Turn(Bytes(number, rest[n.value.next..n.value.next + n.value.value]),
                      |tag| + n.value.next + n.value.value)
  {
    hide ReadVarint, NextField;
    VarintBehind(tag, rest);
    BytesTurn(tag + rest, VarintRead(t, |tag|));
    var n := ReadVarint(rest, 0);
    if n.Some? && n.value.next + n.value.value <= |rest| {
      PayloadBehind(tag, rest, n.value.next, n.value.next + n.value.value);
    }
  }

  /** After a tag of wire type 2. */
  lemma BytesTurn(m: seq<Byte>, tag: VarintRead)
    requires m != [] && ReadVarint(m, 0) == Some(tag) && tag.value / 8 > 0 && tag.value % 8 == 2
    ensures var n := ReadVarint(m, tag.next);
            NextField(m, 0) ==
            if n.None? then Stuck(MalformedVarint)
            else if n.value.next + n.value.value > |m| then Stuck(PastTheEnd)
            else Turn(Bytes(tag.value / 8, m[n.value.next..n.value.next + n.value.value]), n.value.next + n.value.value)
  {
    hide ReadVarint;
  }

  lemma PayloadBehind(tag: seq<Byte>, rest: seq<Byte>, from: nat, to: nat)
    requires from <= to <= |rest|
    ensures (tag + rest)[|tag| + from..|tag| + to] == rest[from..to]
  {
  }

  /**
   A message that cannot begin with a tag is malformed; ten groups that all go on are too
   many, and so is a message that ends in one.
   */
  lemma MalformedVarints(m: seq<Byte>, start: nat)
    ensures start < |m| && ReadVarint(m, start).None? ==> NextField(m, start) == Stuck(MalformedVarint)
    ensures (forall i | start <= i < start + 10 && i < |m| :: m[i] >= 128) ==> ReadVarint(m, start).None?
  {
    if forall i | start <= i < start + 10 && i < |m| :: m[i] >= 128 {
      NoGroupEnds(m, start, 10);
    }
  }

  lemma {:induction false} NoGroupEnds(m: seq<Byte>, at: nat, left: nat)
    requires forall i | at <= i < at + left && i < |m| :: m[i] >= 128
    ensures ReadGroups(m, at, left).None?
    decreases left
  {
    if left > 0 && at < |m| {
      NoGroupEnds(m, at + 1, left - 1);
    }
  }

  /** Bytes of real messages: 150 in field 1, two bytes in field 2, and the two fixed widths. */
  lemma WireExamples(a: Byte, b: Byte, raw: seq<Byte>)
    requires |raw| == 8
    ensures NextField([0x08, 0x96, 0x01], 0) == Turn(Varint(1, 150), 3)
    ensures NextField([0x12, 0x02, a, b], 0) == Turn(Bytes(2, [a, b]), 4)
    ensures NextField([0x19] + raw, 0) == Turn(Skipped(3), 9)
    ensures NextField([0x1d] + raw, 0) == Turn(Skipped(3), 5)
  {
    ShortVarints([0x08, 0x96, 0x01], 0);
    ShortVarints([0x08, 0x96, 0x01], 1);
    ShortVarints([0x12, 0x02, a, b], 0);
    ShortVarints([0x12, 0x02, a, b], 1);
    ShortVarints([0x19] + raw, 0);
    ShortVarints([0x1d] + raw, 0);
    hide ReadVarint;
    assert [0x12, 0x02, a, b][2..4] == [a, b];
  }

  lemma ShortVarints(m: seq<Byte>, at: nat)
    requires at < |m|
    ensures m[at] < 128 ==> ReadVarint(m, at) == Some(VarintRead(m[at], at + 1))
    ensures m[at] >= 128 && at + 1 < |m| && m[at + 1] < 128 ==>
              ReadVarint(m, at) == Some(VarintRead(m[at] as int - 128 + 128 * (m[at + 1] as int), at + 2))
  {
  }

  /** The walker undoes the encoder, for every list of fields. */
  lemma {:induction false} MessageRoundTrip(rs: seq<Record>)
    requires forall i | 0 <= i < |rs| :: WellFormed(rs[i])
    ensures Fields(EncodeAll(rs)) == Walk(FieldsOf(rs), None)
  {
    hide WellFormed, EncodeRecord, NextField, FieldOf;
    if rs != [] {
      RecordRoundTrip(rs[0]);
      MessageRoundTrip(rs[1..]);
      WalkIsHomomorphic(EncodeRecord(rs[0]), EncodeAll(rs[1..]));
    }
  }
}
