/** Sensor readings as CayenneLPP records in a reply body (internal/sensor/lpp.go, internal/sensor/reply.go).
    Readings are exact reals; the codes and the packet's limits are the mesh library's, which is not part of
    this model. */
module TelemetryReply {
  import opened Common

  // ---------------------------------------------------------------------------------------------
  // The publishable types
  // ---------------------------------------------------------------------------------------------

  datatype Lpp =
    | Temperature | RelativeHumidity | BarometricPressure | Voltage | Current | AnalogInput | AnalogOutput
    | GenericSensor | Percentage | Luminosity | Altitude | Concentration | Power | Frequency | Distance | Energy
    | Direction | DigitalInput | DigitalOutput | Presence | Switch | UnixTime

  function CodeOf(t: Lpp): Byte
  {
    match t
    case DigitalInput => 0 case DigitalOutput => 1 case AnalogInput => 2 case AnalogOutput => 3
    case GenericSensor => 100 case Luminosity => 101 case Presence => 102 case Temperature => 103
    case RelativeHumidity => 104 case BarometricPressure => 115 case Voltage => 116 case Current => 117
    case Frequency => 118 case Percentage => 120 case Altitude => 121 case Concentration => 125 case Power => 128
    case Distance => 130 case Energy => 131 case Direction => 132 case UnixTime => 133 case Switch => 142
  }

  function Lookup(code: Byte): Option<Lpp>
  {
    if code == 0 then Some(DigitalInput) else if code == 1 then Some(DigitalOutput)
    else if code == 2 then Some(AnalogInput) else if code == 3 then Some(AnalogOutput)
    else if code == 100 then Some(GenericSensor) else if code == 101 then Some(Luminosity)
    else if code == 102 then Some(Presence) else if code == 103 then Some(Temperature)
    else if code == 104 then Some(RelativeHumidity) else if code == 115 then Some(BarometricPressure)
    else if code == 116 then Some(Voltage) else if code == 117 then Some(Current)
    else if code == 118 then Some(Frequency) else if code == 120 then Some(Percentage)
    else if code == 121 then Some(Altitude) else if code == 125 then Some(Concentration)
    else if code == 128 then Some(Power) else if code == 130 then Some(Distance)
    else if code == 131 then Some(Energy) else if code == 132 then Some(Direction)
    else if code == 133 then Some(UnixTime) else if code == 142 then Some(Switch)
    else None
  }

  lemma LookupInvertsCode(t: Lpp, code: Byte)
    ensures Lookup(CodeOf(t)) == Some(t)
    ensures Lookup(code).Some? ==> CodeOf(Lookup(code).value) == code
  {
  }

  /** Payload bytes, without the two-byte header. */
  function Size(t: Lpp): nat
  {
    match t
    case GenericSensor => 4 case Frequency => 4 case Distance => 4 case Energy => 4 case UnixTime => 4
    case RelativeHumidity => 1 case Percentage => 1 case DigitalInput => 1 case DigitalOutput => 1
    case Presence => 1 case Switch => 1
    case _ => 2
  }

  /** What one step on the wire is worth. */
  function StepOf(t: Lpp): real
  {
    match t
    case Temperature => 0.1 case RelativeHumidity => 0.5 case BarometricPressure => 0.1 case Voltage => 0.01
    case Current => 0.001 case AnalogInput => 0.01 case AnalogOutput => 0.01 case Distance => 0.001 case Energy => 0.001
    case _ => 1.0
  }

  /** Presence and switch carry on or off. */
  predicate IsFlag(t: Lpp) { t.Presence? || t.Switch? }

  /** Types whose value is rounded before it is clamped; the others' scaled values are cut by the encoder. */
  predicate IsRounded(t: Lpp)
  {
    t.GenericSensor? || t.Frequency? || t.UnixTime? || t.Luminosity? || t.Concentration? || t.Power?
    || t.Direction? || t.Percentage? || t.DigitalInput? || t.DigitalOutput?
  }

  predicate IsSigned(t: Lpp)
  {
    t.Temperature? || t.Voltage? || t.Current? || t.AnalogInput? || t.AnalogOutput? || t.Altitude?
  }

  /** The range a value of the type is clamped to, in wire steps. */
  function LowStep(t: Lpp): int { if IsSigned(t) then -32768 else 0 }

  function HighStep(t: Lpp): int
  {
    if IsSigned(t) then 32767
    else match t
      case Percentage => 100 case Direction => 360
      case Presence => 1 case Switch => 1
      case _ => if Size(t) == 1 then 255 else if Size(t) == 2 then 65535 else 4294967295
  }

  function Within(v: real, lo: real, hi: real): real
  {
    var low := if v > lo then v else lo;
    if low < hi then low else hi
  }

  function Clamped(t: Lpp, v: real): real { Within(v, LowStep(t) as real * StepOf(t), HighStep(t) as real * StepOf(t)) }

  /** The integer a value is written as. */
  function WireInt(t: Lpp, v: real): int
  {
    if IsFlag(t) then if v != 0.0 then 1 else 0
    else if IsRounded(t) then Truncate(Within(Round(v) as real, LowStep(t) as real, HighStep(t) as real))
    else Truncate(Clamped(t, v) / StepOf(t))
  }

  lemma ScaledStaysInRange(t: Lpp, v: real)
    requires !IsFlag(t) && !IsRounded(t)
    ensures LowStep(t) as real <= Clamped(t, v) / StepOf(t) <= HighStep(t) as real
  {
    var s := StepOf(t);
    var c := Clamped(t, v);
    assert LowStep(t) as real * s <= c <= HighStep(t) as real * s;
    assert s > 0.0;
    DivideBound(LowStep(t) as real, c, HighStep(t) as real, s);
  }

  lemma DivideBound(lo: real, c: real, hi: real, s: real)
    requires s > 0.0 && lo * s <= c <= hi * s
    ensures lo <= c / s <= hi
  {
    assert c / s * s == c;
    assert (c / s - lo) * s >= 0.0 && (hi - c / s) * s >= 0.0;
  }

  /** An over-range reading pegs: what is written always fits the type's field. */
  lemma WireIntInRange(t: Lpp, v: real)
    ensures LowStep(t) <= WireInt(t, v) <= HighStep(t)
  {
    if !IsFlag(t) && !IsRounded(t) {
      ScaledStaysInRange(t, v);
    }
  }

  /** A mapped value is carried to within one step of the clamped reading. */
  lemma CarriedWithinAStep(t: Lpp, v: real)
    requires !IsFlag(t)
    ensures -StepOf(t) < WireInt(t, v) as real * StepOf(t) - Clamped(t, v) < StepOf(t)
  {
    if IsRounded(t) {
      RoundedWithinAStep(t, v);
    } else {
      CutWithinAStep(t, v);
    }
  }

  lemma RoundedWithinAStep(t: Lpp, v: real)
    requires IsRounded(t)
    ensures -1.0 < WireInt(t, v) as real - Clamped(t, v) < 1.0 && StepOf(t) == 1.0
  {
    assert -0.5 <= Round(v) as real - v <= 0.5;
  }

  /** Cutting a quotient moves it by less than one, and so the value by less than the divisor. */
  lemma CutWithinAStep(t: Lpp, v: real)
    requires !IsFlag(t) && !IsRounded(t)
    ensures -StepOf(t) < WireInt(t, v) as real * StepOf(t) - Clamped(t, v) < StepOf(t)
  {
    var c := Clamped(t, v);
    assert WireInt(t, v) == Truncate(c / StepOf(t));
    hide Clamped, StepOf, IsFlag, IsRounded, WireInt, Truncate;
    CutMovesByLess(t, c);
  }

  lemma CutMovesByLess(t: Lpp, c: real)
    ensures -StepOf(t) < Truncate(c / StepOf(t)) as real * StepOf(t) - c < StepOf(t)
  {
    var s := StepOf(t);
    var q := c / s;
    assert -1.0 < Truncate(q) as real - q < 1.0;
    assert q * s == c;
  }

  // ---------------------------------------------------------------------------------------------
  // Records on the wire
  // ---------------------------------------------------------------------------------------------

  /** One reading as it travels: its channel, its type and the integer written. */
  datatype Rec = Rec(channel: Byte, kind: Lpp, wire: int)

  function Pow256(n: nat): nat { if n == 0 then 1 else 256 * Pow256(n - 1) }

  /** The low n bytes, highest first. */
  function PutInt(x: int, n: nat): (bytes: seq<Byte>)
    ensures |bytes| == n
    decreases n
  {
    if n == 0 then [] else PutInt(x / 256, n - 1) + [x % 256]
  }

  function GetUnsigned(bytes: seq<Byte>): nat
  {
    if bytes == [] then 0 else 256 * GetUnsigned(bytes[..|bytes| - 1]) + bytes[|bytes| - 1]
  }

  function GetInt(bytes: seq<Byte>, signed: bool): int
  {
    var u := GetUnsigned(bytes);
    if signed && 2 * u >= Pow256(|bytes|) then u - Pow256(|bytes|) else u
  }

  function PutRec(r: Rec): (bytes: seq<Byte>)
    ensures |bytes| == 2 + Size(r.kind)
  {
    [r.channel, CodeOf(r.kind)] + PutInt(r.wire, Size(r.kind))
  }

  function PutAll(rs: seq<Rec>): seq<Byte>
  {
    if rs == [] then [] else PutAll(rs[..|rs| - 1]) + PutRec(rs[|rs| - 1])
  }

  /** A decoder reads record by record; channel 0 ends the body, and a type it does not know or a record cut
      short is an error. */
  function Decode(body: seq<Byte>): Option<seq<Rec>>
    decreases |body|
  {
    if body == [] || body[0] == 0 then Some([])
    else if |body| < 2 || Lookup(body[1]).None? then None
    else
      var t := Lookup(body[1]).value;
      if |body| < 2 + Size(t) then None
      else
        var rest := Decode(body[2 + Size(t)..]);
        if rest.None? then None else Some([Rec(body[0], t, GetInt(body[2..2 + Size(t)], IsSigned(t)))] + rest.value)
  }

  /** The unsigned reading differs from what was written by a whole number of turns. */
  lemma {:induction false} UnsignedComesBack(x: int, n: nat) returns (turns: int)
    ensures 0 <= GetUnsigned(PutInt(x, n)) < Pow256(n)
    ensures GetUnsigned(PutInt(x, n)) - x == turns * Pow256(n)
    decreases n
  {
    if n == 0 {
      turns := -x;
    } else {
      turns := UnsignedComesBack(x / 256, n - 1);
      var bytes := PutInt(x, n);
      assert bytes[..n - 1] == PutInt(x / 256, n - 1);
      TurnsCarryOver(turns, Pow256(n - 1));
    }
  }

  lemma TurnsCarryOver(turns: int, p: int)
    ensures 256 * (turns * p) == turns * (256 * p)
  {
  }

  lemma PowTable()
    ensures Pow256(1) == 256 && Pow256(2) == 65536 && Pow256(4) == 4294967296
  {
    assert Pow256(3) == 16777216;
  }

  /** A record within its type's range reads back as the integer written. */
  lemma IntComesBack(t: Lpp, x: int)
    requires LowStep(t) <= x <= HighStep(t)
    ensures GetInt(PutInt(x, Size(t)), IsSigned(t)) == x
  {
    var turns := UnsignedComesBack(x, Size(t));
    PowTable();
    hide Pow256, PutInt, GetUnsigned;
    WithinOneTurn(GetUnsigned(PutInt(x, Size(t))), x, Pow256(Size(t)), turns);
  }

  /** A value a whole number of turns from x and in [0, p) is x, or x + p for a negative x. */
  lemma WithinOneTurn(u: int, x: int, p: int, turns: int)
    requires p > 0 && 0 <= u < p && -p <= x < p && u - x == turns * p
    ensures u == if x >= 0 then x else x + p
  {
    assert turns >= 2 ==> turns * p >= 2 * p;
    assert turns <= -1 ==> turns * p <= -p;
  }

  ghost predicate RecOk(r: Rec)
  {
    r.channel != 0 && LowStep(r.kind) <= r.wire <= HighStep(r.kind)
  }

  lemma DecodeOne(r: Rec, rest: seq<Byte>)
    requires RecOk(r)
    ensures Decode(PutRec(r) + rest) == if Decode(rest).None? then None else Some([r] + Decode(rest).value)
  {
    hide CodeOf, Lookup, LowStep, HighStep, GetInt, PutInt, Size, IsSigned;
    var body, n := PutRec(r) + rest, Size(r.kind);
    LookupInvertsCode(r.kind, 0);
    IntComesBack(r.kind, r.wire);
    assert body[2..2 + n] == PutInt(r.wire, n) && body[2 + n..] == rest;
  }

  lemma {:induction false} DecodeMore(rs: seq<Rec>, rest: seq<Byte>)
    requires forall i | 0 <= i < |rs| :: RecOk(rs[i])
    ensures Decode(PutAll(rs) + rest) == if Decode(rest).None? then None else Some(rs + Decode(rest).value)
    decreases |rs|
  {
    hide Decode, PutRec, RecOk;
    if rs == [] {
      assert PutAll(rs) + rest == rest;
      if Decode(rest).Some? { assert rs + Decode(rest).value == Decode(rest).value; }
    } else {
      var n := |rs| - 1;
      assert PutAll(rs) + rest == PutAll(rs[..n]) + (PutRec(rs[n]) + rest);
      DecodeMore(rs[..n], PutRec(rs[n]) + rest);
      DecodeOne(rs[n], rest);
      if Decode(rest).Some? {
        assert rs[..n] + ([rs[n]] + Decode(rest).value) == rs + Decode(rest).value;
      }
    }
  }

  /** A body decodes to exactly the records it was built from, in order. */
  lemma {:induction false} BodyDecodes(rs: seq<Rec>)
    requires forall i | 0 <= i < |rs| :: RecOk(rs[i])
    ensures Decode(PutAll(rs)) == Some(rs)
  {
    DecodeMore(rs, []);
    assert PutAll(rs) + [] == PutAll(rs) && rs + [] == rs;
  }

  // ---------------------------------------------------------------------------------------------
  // The channel map
  // ---------------------------------------------------------------------------------------------

  const CHANNEL_SELF := 1
  const MAX_CHANNEL := 32
  const MAX_TELEMETRY_PAYLOAD := 153 - 8

  datatype Entry = Entry(channel: Byte, code: Byte, sensorId: int, metric: string)

  predicate IsSelfCode(code: Byte) { code == CodeOf(Voltage) || code == CodeOf(Temperature) }

  function RowSize(e: Entry): nat
  {
    match Lookup(e.code)
    case Some(t) => 2 + Size(t)
    case None => 0
  }

  function MapSize(entries: seq<Entry>): nat
  {
    if entries == [] then 0 else MapSize(entries[..|entries| - 1]) + RowSize(entries[|entries| - 1])
  }

  predicate RowOk(e: Entry)
  {
    && Lookup(e.code).Some?
    && (e.channel == CHANNEL_SELF ==> IsSelfCode(e.code))
    && 1 <= e.channel <= MAX_CHANNEL
    && e.sensorId != 0 && e.metric != ""
  }

  /** A map that can be sent as written: rows well formed, no channel and type twice, and all of it in the budget. */
  ghost predicate ValidMap(entries: seq<Entry>)
  {
    && (forall i | 0 <= i < |entries| :: RowOk(entries[i]))
    && (forall i, j | 0 <= i < j < |entries| ::
      (entries[i].channel, entries[i].code) != (entries[j].channel, entries[j].code))
    && MapSize(entries) <= MAX_TELEMETRY_PAYLOAD
  }

  method TelemetrySize(entries: seq<Entry>) returns (n: nat)
    ensures n == MapSize(entries)
  {
    n := 0;
    for i := 0 to |entries|
      invariant n == MapSize(entries[..i])
    {
      assert entries[..i + 1][..i] == entries[..i];
      var t := Lookup(entries[i].code);
      if t.None? {
        continue;
      }
      n := n + 2 + Size(t.value);
    }
    assert entries[..|entries|] == entries;
  }

  method ValidateChannelMap(entries: seq<Entry>) returns (ok: bool)
    ensures ok <==> ValidMap(entries)
  {
    var seen: set<(Byte, Byte)> := {};
    for i := 0 to |entries|
      invariant forall k | 0 <= k < i :: RowOk(entries[k])
      invariant forall j, k | 0 <= j < k < i ::
        (entries[j].channel, entries[j].code) != (entries[k].channel, entries[k].code)
      invariant forall x :: x in seen <==> exists k :: 0 <= k < i && (entries[k].channel, entries[k].code) == x
    {
      var e := entries[i];
      if Lookup(e.code).None? {
        return false;
      }
      if e.channel == CHANNEL_SELF && !IsSelfCode(e.code) {
        return false;
      }
      if e.channel == 0 {
        return false;
      }
      if e.channel > MAX_CHANNEL {
        return false;
      }
      if e.sensorId == 0 || e.metric == "" {
        return false;
      }
      var key := (e.channel, e.code);
      if key in seen {
        ghost var k :| 0 <= k < i && (entries[k].channel, entries[k].code) == key;
        return false;
      }
      seen := seen + {key};
    }
    var n := TelemetrySize(entries);
    ok := n <= MAX_TELEMETRY_PAYLOAD;
  }

  // ---------------------------------------------------------------------------------------------
  // The reply
  // ---------------------------------------------------------------------------------------------

  /** A reading's value; NotANumber stands for NaN and the infinities. */
  datatype Value = Number(v: real) | NotANumber

  datatype Reading = Reading(metric: string, value: Value)

  /** A sensor's last result; at is None before its first. */
  datatype Status = Status(sensorId: int, readings: seq<Reading>, at: Option<int>, err: string)

  datatype SelfReadings = SelfReadings(batteryVolts: real, tempC: Option<real>)

  /** The permission classes a requester is allowed. */
  datatype Perms = Perms(base: bool, environment: bool)

  /** The last status listed for a sensor. */
  function StatusOf(statuses: seq<Status>, id: int): Option<Status>
  {
    if statuses == [] then None
    else if statuses[|statuses| - 1].sensorId == id then Some(statuses[|statuses| - 1])
    else StatusOf(statuses[..|statuses| - 1], id)
  }

  function FirstReading(readings: seq<Reading>, metric: string): Option<Value>
  {
    if readings == [] then None
    else if readings[0].metric == metric then Some(readings[0].value)
    else FirstReading(readings[1..], metric)
  }

  /** What a row has to publish: nothing when its sensor is missing, failing or unread, or has no such number. */
  function ReadingOf(statuses: seq<Status>, e: Entry): Option<real>
  {
    var st := StatusOf(statuses, e.sensorId);
    if st.None? || st.value.err != "" || st.value.at.None? then None
    else
      var v := FirstReading(st.value.readings, e.metric);
      if v.None? || v.value.NotANumber? then None else Some(v.value.v)
  }

  function Published(statuses: seq<Status>, e: Entry): Option<Rec>
  {
    var v, t := ReadingOf(statuses, e), Lookup(e.code);
    if v.None? || t.None? then None else Some(Rec(e.channel, t.value, WireInt(t.value, v.value)))
  }

  /** Which rows a part of the reply takes: one of the node's own types, or every other channel. */
  datatype Want = Own(code: Byte) | Sensors

  predicate Wants(w: Want, e: Entry)
  {
    match w
    case Own(code) => e.channel == CHANNEL_SELF && e.code == code
    case Sensors => e.channel != CHANNEL_SELF
  }

  /** The wanted rows' records, in map order. */
  function Rows(entries: seq<Entry>, statuses: seq<Status>, w: Want): seq<Rec>
  {
    if entries == [] then [] else
    var n := |entries| - 1;
    var p := Published(statuses, entries[n]);
    Rows(entries[..n], statuses, w) + if Wants(w, entries[n]) && p.Some? then [p.value] else []
  }

  /** A reading of the node's own, written without a clamp: past its field the integer wraps. */
  function OwnRec(t: Lpp, v: real): Rec
  {
    Rec(CHANNEL_SELF, t, WrapWire(Truncate(v / StepOf(t))))
  }

  function WrapWire(x: int): int { (x + 32768) % 65536 - 32768 }

  predicate Mapped(entries: seq<Entry>, code: Byte)
  {
    exists i :: 0 <= i < |entries| && entries[i].channel == CHANNEL_SELF && entries[i].code == code
  }

  /** Where a row takes the node's own channel and type, that row's reading is sent and no other, even if it has
      none. */
  function OwnPart(entries: seq<Entry>, statuses: seq<Status>, t: Lpp, builtIn: Option<real>): seq<Rec>
  {
    if Mapped(entries, CodeOf(t)) then Rows(entries, statuses, Own(CodeOf(t)))
    else if builtIn.Some? then [OwnRec(t, builtIn.value)] else []
  }

  /** Battery first, then the mapped sensors in map order, the board temperature last. */
  function Reply(perms: Perms, self: SelfReadings, entries: seq<Entry>, statuses: seq<Status>, sensors: bool): seq<Rec>
  {
    (if perms.base then OwnPart(entries, statuses, Voltage, Some(self.batteryVolts)) else [])
    + (if sensors && perms.environment then Rows(entries, statuses, Sensors) else [])
    + (if perms.base then OwnPart(entries, statuses, Temperature, self.tempC) else [])
  }

  lemma {:induction false} PutAllConcat(a: seq<Rec>, b: seq<Rec>)
    ensures PutAll(a + b) == PutAll(a) + PutAll(b)
    decreases |b|
  {
    hide PutRec;
    if b == [] {
      assert a + b == a;
    } else {
      var n := |b| - 1;
      PutAllConcat(a, b[..n]);
      assert (a + b)[..|a + b| - 1] == a + b[..n];
      assert PutAll(a) + (PutAll(b[..n]) + PutRec(b[n])) == PutAll(a) + PutAll(b[..n]) + PutRec(b[n]);
    }
  }

  method FindReading(readings: seq<Reading>, metric: string) returns (v: Option<Value>)
    ensures v == FirstReading(readings, metric)
  {
    for i := 0 to |readings|
      invariant FirstReading(readings, metric) == FirstReading(readings[i..], metric)
    {
      if readings[i].metric == metric {
        return Some(readings[i].value);
      }
      assert readings[i..][1..] == readings[i + 1..];
    }
    v := None;
  }

  /** A later status of a sensor replaces an earlier one. */
  method StatusById(statuses: seq<Status>) returns (byId: map<int, Status>)
    ensures forall id :: StatusOf(statuses, id) == if id in byId then Some(byId[id]) else None
  {
    byId := map[];
    for i := 0 to |statuses|
      invariant forall id :: StatusOf(statuses[..i], id) == if id in byId then Some(byId[id]) else None
    {
      assert statuses[..i + 1][..i] == statuses[..i];
      byId := byId[statuses[i].sensorId := statuses[i]];
    }
    assert statuses[..|statuses|] == statuses;
  }

  /** Appends the wanted rows' readings to what is encoded so far. */
  method EncodeEntries(enc0: seq<Byte>, entries: seq<Entry>, statuses: seq<Status>, w: Want) returns (enc: seq<Byte>)
    ensures enc == enc0 + PutAll(Rows(entries, statuses, w))
  {
    hide PutRec, PutAll, Rows, WireInt, StatusOf, FirstReading;
    var byId := StatusById(statuses);
    enc := enc0;
    NoRows(enc0, entries, statuses, w);
    for i := 0 to |entries|
      invariant enc == enc0 + PutAll(Rows(entries[..i], statuses, w))
    {
      var e := entries[i];
      NextRow(enc0, entries, statuses, w, i);
      if !Wants(w, e) {
        continue;
      }
      if e.sensorId !in byId || byId[e.sensorId].err != "" || byId[e.sensorId].at.None? {
        continue;
      }
      var v := FindReading(byId[e.sensorId].readings, e.metric);
      if v.None? || v.value.NotANumber? {
        continue;
      }
      var t := Lookup(e.code);
      if t.Some? {
        enc := enc + PutRec(Rec(e.channel, t.value, WireInt(t.value, v.value.v)));
      }
    }
    assert entries[..|entries|] == entries;
  }

  lemma NoRows(enc0: seq<Byte>, entries: seq<Entry>, statuses: seq<Status>, w: Want)
    ensures enc0 == enc0 + PutAll(Rows(entries[..0], statuses, w))
  {
  }

  lemma {:induction false} NextRow(enc0: seq<Byte>, entries: seq<Entry>, statuses: seq<Status>, w: Want, i: nat)
    requires i < |entries|
    ensures enc0 + PutAll(Rows(entries[..i + 1], statuses, w)) ==
            if Wants(w, entries[i]) && Published(statuses, entries[i]).Some?
            then enc0 + PutAll(Rows(entries[..i], statuses, w)) + PutRec(Published(statuses, entries[i]).value)
            else enc0 + PutAll(Rows(entries[..i], statuses, w))
  {
    hide PutRec, Published, Wants;
    assert entries[..i + 1][..i] == entries[..i];
    var rows, p := Rows(entries[..i], statuses, w), Published(statuses, entries[i]);
    if Wants(w, entries[i]) && p.Some? {
      assert (rows + [p.value])[..|rows|] == rows;
    } else {
      assert rows + [] == rows;
    }
  }

  /** The body with every class allowed, or without the mapped sensors when that is too big. */
  method BuildReply(perms: Perms, self: SelfReadings, entries: seq<Entry>, statuses: seq<Status>, maxBody: int)
    returns (body: seq<Byte>, dropped: bool)
    ensures dropped <==> |PutAll(Reply(perms, self, entries, statuses, true))| > maxBody
    ensures body == PutAll(Reply(perms, self, entries, statuses, !dropped))
  {
    body := Build(perms, self, entries, statuses, true);
    dropped := |body| > maxBody;
    if dropped {
      body := Build(perms, self, entries, statuses, false);
    }
  }

  method Build(perms: Perms, self: SelfReadings, entries: seq<Entry>, statuses: seq<Status>, sensors: bool)
    returns (enc: seq<Byte>)
    ensures enc == PutAll(Reply(perms, self, entries, statuses, sensors))
  {
    hide PutAll, Rows, PutRec;
    ghost var battery := if perms.base then OwnPart(entries, statuses, Voltage, Some(self.batteryVolts)) else [];
    ghost var mapped := if sensors && perms.environment then Rows(entries, statuses, Sensors) else [];
    ghost var board := if perms.base then OwnPart(entries, statuses, Temperature, self.tempC) else [];
    PutNothing();
    enc := [];
    if perms.base {
      enc := EncodeOwn(enc, entries, statuses, Voltage, Some(self.batteryVolts));
      assert [] + PutAll(battery) == PutAll(battery);
    }
    assert enc == PutAll(battery);
    assert battery + [] == battery && battery + mapped + [] == battery + mapped &&
      PutAll(battery) + [] == PutAll(battery);
    if sensors && perms.environment {
      enc := EncodeEntries(enc, entries, statuses, Sensors);
    }
    PutAllConcat(battery, mapped);
    assert enc == PutAll(battery + mapped);
    if perms.base {
      enc := EncodeOwn(enc, entries, statuses, Temperature, self.tempC);
    }
    PutAllConcat(battery + mapped, board);
    assert Reply(perms, self, entries, statuses, sensors) == battery + mapped + board;
  }

  lemma PutNothing()
    ensures PutAll([]) == []
  {
  }

  method EncodeOwn(enc0: seq<Byte>, entries: seq<Entry>, statuses: seq<Status>, t: Lpp, builtIn: Option<real>)
    returns (enc: seq<Byte>)
    ensures enc == enc0 + PutAll(OwnPart(entries, statuses, t, builtIn))
  {
    hide PutRec, Rows, OwnRec;
    enc := enc0;
    if Mapped(entries, CodeOf(t)) {
      enc := EncodeEntries(enc, entries, statuses, Own(CodeOf(t)));
    } else if builtIn.Some? {
      var r := OwnRec(t, builtIn.value);
      assert [r][..0] == [];
      enc := enc + PutRec(r);
    }
  }

  // ---------------------------------------------------------------------------------------------
  // What a reply carries
  // ---------------------------------------------------------------------------------------------

  ghost predicate DistinctKeys(rs: seq<Rec>)
  {
    forall i, j | 0 <= i < j < |rs| :: (rs[i].channel, rs[i].kind) != (rs[j].channel, rs[j].kind)
  }

  /** Each record of a row is that row's, in range, and no channel and type comes twice. */
  lemma {:induction false} RowsAreSound(entries: seq<Entry>, statuses: seq<Status>, w: Want)
    requires ValidMap(entries)
    ensures var rs := Rows(entries, statuses, w);
      && DistinctKeys(rs)
      && (forall i | 0 <= i < |rs| :: RecOk(rs[i]))
      && (forall i | 0 <= i < |rs| :: exists k ::
            0 <= k < |entries| && Wants(w, entries[k]) && entries[k].channel == rs[i].channel &&
              entries[k].code == CodeOf(rs[i].kind))
    decreases |entries|
  {
    hide WireInt;
    if entries != [] {
      var n := |entries| - 1;
      PrefixIsValid(entries);
      RowsAreSound(entries[..n], statuses, w);
      var before, rs := Rows(entries[..n], statuses, w), Rows(entries, statuses, w);
      forall i | 0 <= i < |rs| ensures RecOk(rs[i]) && exists k ::
        0 <= k < |entries| && Wants(w, entries[k]) && entries[k].channel == rs[i].channel &&
          entries[k].code == CodeOf(rs[i].kind)
      {
        if i < |before| {
          var k :| 0 <= k < n && Wants(w, entries[..n][k]) && entries[..n][k].channel == before[i].channel &&
            entries[..n][k].code == CodeOf(before[i].kind);
          assert entries[k] == entries[..n][k];
        } else {
          RowIsSound(statuses, entries[n]);
        }
      }
      forall i | 0 <= i < |before| && |rs| > |before|
        ensures (rs[i].channel, rs[i].kind) != (rs[|before|].channel, rs[|before|].kind) {
        var k :| 0 <= k < n && entries[..n][k].channel == before[i].channel &&
          entries[..n][k].code == CodeOf(before[i].kind);
        RowIsSound(statuses, entries[n]);
        assert entries[k] == entries[..n][k];
      }
    }
  }

  lemma PrefixIsValid(entries: seq<Entry>)
    requires ValidMap(entries) && entries != []
    ensures ValidMap(entries[..|entries| - 1])
  {
  }

  lemma RowIsSound(statuses: seq<Status>, e: Entry)
    requires RowOk(e) && Published(statuses, e).Some?
    ensures var r := Published(statuses, e).value; RecOk(r) && r.channel == e.channel && CodeOf(r.kind) == e.code
  {
    hide WireInt;
    var t := Lookup(e.code).value;
    LookupInvertsCode(t, e.code);
    WireIntInRange(t, ReadingOf(statuses, e).value);
  }

  lemma {:induction false} KeysJoin(a: seq<Rec>, b: seq<Rec>)
    requires DistinctKeys(a) && DistinctKeys(b)
    requires forall i, j | 0 <= i < |a| && 0 <= j < |b| :: (a[i].channel, a[i].kind) != (b[j].channel, b[j].kind)
    ensures DistinctKeys(a + b)
  {
  }

  /** The node's own part is at most one record, on its own channel and of the type asked. */
  lemma OwnPartIsOne(entries: seq<Entry>, statuses: seq<Status>, t: Lpp, builtIn: Option<real>)
    requires ValidMap(entries) && IsSigned(t)
    ensures var rs := OwnPart(entries, statuses, t, builtIn);
      |rs| <= 1 && (rs != [] ==> RecOk(rs[0]) && rs[0].channel == CHANNEL_SELF && rs[0].kind == t)
  {
    hide Rows, WireInt;
    var code := CodeOf(t);
    var rs := Rows(entries, statuses, Own(code));
    RowsAreSound(entries, statuses, Own(code));
    LookupInvertsCode(t, code);
    forall i | 0 <= i < |rs| ensures rs[i].channel == CHANNEL_SELF && rs[i].kind == t {
      LookupInvertsCode(rs[i].kind, code);
    }
    if rs != [] {
      var last := |rs| - 1;
      assert (rs[0].channel, rs[0].kind) == (rs[last].channel, rs[last].kind);
    }
  }

  /** Every record of a reply is in its type's range and off channel 0, and no channel and type comes twice. */
  lemma ReplyIsSound(perms: Perms, self: SelfReadings, entries: seq<Entry>, statuses: seq<Status>, sensors: bool)
    requires ValidMap(entries)
    ensures var rs := Reply(perms, self, entries, statuses, sensors);
      DistinctKeys(rs) && forall i | 0 <= i < |rs| :: RecOk(rs[i])
  {
    hide Rows, OwnPart, RecOk;
    OwnPartIsOne(entries, statuses, Voltage, Some(self.batteryVolts));
    OwnPartIsOne(entries, statuses, Temperature, self.tempC);
    RowsAreSound(entries, statuses, Sensors);
    var battery := if perms.base then OwnPart(entries, statuses, Voltage, Some(self.batteryVolts)) else [];
    var mapped := if sensors && perms.environment then Rows(entries, statuses, Sensors) else [];
    var board := if perms.base then OwnPart(entries, statuses, Temperature, self.tempC) else [];
    assert forall i | 0 <= i < |mapped| :: mapped[i].channel != CHANNEL_SELF;
    KeysJoin(battery, mapped);
    KeysJoin(battery + mapped, board);
  }

  /** A reply decodes to the node's battery, then the mapped sensors in map order, then its temperature. */
  lemma {:induction false} ReplyDecodes(perms: Perms, self: SelfReadings, entries: seq<Entry>, statuses: seq<Status>,
                                        sensors: bool)
    requires ValidMap(entries)
    ensures Decode(PutAll(Reply(perms, self, entries, statuses, sensors))) ==
      Some(Reply(perms, self, entries, statuses, sensors))
  {
    ReplyIsSound(perms, self, entries, statuses, sensors);
    BodyDecodes(Reply(perms, self, entries, statuses, sensors));
  }

  /** The record carries the reading: a flag exactly, any other to within a step of the type's range. */
  ghost predicate IsCarried(r: Rec, v: real)
  {
    if IsFlag(r.kind) then r.wire == if v != 0.0 then 1 else 0
    else -StepOf(r.kind) < r.wire as real * StepOf(r.kind) - Clamped(r.kind, v) < StepOf(r.kind)
  }

  /** The record is of a row of the map, its channel and type, and carries what the row's sensor reads. */
  ghost predicate IsOfRow(entries: seq<Entry>, statuses: seq<Status>, r: Rec)
  {
    exists k ::
      && 0 <= k < |entries| && entries[k].channel == r.channel && entries[k].code == CodeOf(r.kind)
      && ReadingOf(statuses, entries[k]).Some? && IsCarried(r, ReadingOf(statuses, entries[k]).value)
  }

  /** The record is the node's own battery or temperature, which no row of the map takes over. */
  ghost predicate IsBuiltIn(entries: seq<Entry>, self: SelfReadings, r: Rec)
  {
    && r.channel == CHANNEL_SELF && !Mapped(entries, CodeOf(r.kind))
    && if r.kind == Voltage then IsNear(r, self.batteryVolts)
       else r.kind == Temperature && self.tempC.Some? && IsNear(r, self.tempC.value)
  }

  /** The record carries the node's own reading to within a step, unless that is past the field and wraps. */
  ghost predicate IsNear(r: Rec, v: real)
  {
    var s := StepOf(r.kind);
    -32769.0 * s < v < 32768.0 * s ==> -s < r.wire as real * s - v < s
  }

  lemma OwnIsNear(t: Lpp, v: real)
    requires t == Voltage || t == Temperature
    ensures IsNear(OwnRec(t, v), v)
  {
    var s, k := StepOf(t), Truncate(v / StepOf(t));
    CutMovesByLess(t, v);
    if -32769.0 * s < v < 32768.0 * s {
      assert -32768 <= k <= 32767 by { assert -32769.0 < v / s < 32768.0; }
      FieldDoesNotWrap(k);
    }
    hide Truncate, WrapWire, StepOf;
  }

  lemma FieldDoesNotWrap(x: int)
    requires -32768 <= x <= 32767
    ensures WrapWire(x) == x
  {
  }

  lemma WireIsCarried(channel: Byte, t: Lpp, v: real)
    ensures IsCarried(Rec(channel, t, WireInt(t, v)), v)
  {
    hide WireInt, Clamped, StepOf;
    if IsFlag(t) {
      FlagIsExact(t, v);
    } else {
      CarriedWithinAStep(t, v);
    }
  }

  lemma FlagIsExact(t: Lpp, v: real)
    requires IsFlag(t)
    ensures WireInt(t, v) == if v != 0.0 then 1 else 0
  {
  }

  lemma RowIsCarried(entries: seq<Entry>, statuses: seq<Status>, k: nat)
    requires k < |entries| && RowOk(entries[k]) && Published(statuses, entries[k]).Some?
    ensures IsOfRow(entries, statuses, Published(statuses, entries[k]).value)
  {
    var e := entries[k];
    var t := Lookup(e.code).value;
    LookupInvertsCode(t, e.code);
    WireIsCarried(e.channel, t, ReadingOf(statuses, e).value);
    hide IsCarried, ReadingOf, WireInt, Lookup, CodeOf;
  }

  lemma {:induction false} RowsAreCarried(entries: seq<Entry>, statuses: seq<Status>, w: Want, n: nat)
    requires n <= |entries| && forall i | 0 <= i < |entries| :: RowOk(entries[i])
    ensures forall i | 0 <= i < |Rows(entries[..n], statuses, w)| ::
      IsOfRow(entries, statuses, Rows(entries[..n], statuses, w)[i])
    decreases n
  {
    hide IsOfRow, RowOk, Published, Wants;
    if n > 0 {
      assert entries[..n][..n - 1] == entries[..n - 1];
      RowsAreCarried(entries, statuses, w, n - 1);
      if Published(statuses, entries[n - 1]).Some? {
        RowIsCarried(entries, statuses, n - 1);
      }
    }
  }

  lemma OwnIsCarried(entries: seq<Entry>, statuses: seq<Status>, self: SelfReadings, t: Lpp)
    requires forall i | 0 <= i < |entries| :: RowOk(entries[i])
    requires t == Voltage || t == Temperature
    ensures var rs := OwnPart(entries, statuses, t, if t == Voltage then Some(self.batteryVolts) else self.tempC);
      forall i | 0 <= i < |rs| :: IsOfRow(entries, statuses, rs[i]) || IsBuiltIn(entries, self, rs[i])
  {
    var v := if t == Voltage then Some(self.batteryVolts) else self.tempC;
    RowsAreCarried(entries, statuses, Own(CodeOf(t)), |entries|);
    assert entries[..|entries|] == entries;
    if v.Some? {
      OwnIsNear(t, v.value);
    }
    hide IsOfRow, IsNear, Rows, Mapped, WrapWire, Truncate, StepOf, CodeOf, RowOk;
  }

  /** What an app decodes from a reply is what the sensors read: every record is of a row of the map, or one of the
      node's own that no row takes over, and carries its reading exactly if a flag and else to within a step. */
  lemma DecodedIsCarried(perms: Perms, self: SelfReadings, entries: seq<Entry>, statuses: seq<Status>, sensors: bool)
    requires ValidMap(entries)
    ensures var d := Decode(PutAll(Reply(perms, self, entries, statuses, sensors)));
      d.Some? && forall i | 0 <= i < |d.value| ::
        IsOfRow(entries, statuses, d.value[i]) || IsBuiltIn(entries, self, d.value[i])
  {
    ReplyDecodes(perms, self, entries, statuses, sensors);
    RowsAreCarried(entries, statuses, Sensors, |entries|);
    assert entries[..|entries|] == entries;
    OwnIsCarried(entries, statuses, self, Voltage);
    OwnIsCarried(entries, statuses, self, Temperature);
    hide Decode, PutAll, Rows, OwnPart, IsOfRow, IsBuiltIn, ValidMap;
  }

  // ---------------------------------------------------------------------------------------------
  // The budget
  // ---------------------------------------------------------------------------------------------

  const MAX_PACKET_PAYLOAD := 184
  const MAX_COMBINED_PATH := 166
  const RESP_HEADER_LEN := 4
  const CIPHER_BLOCK := 16
  const MAX_FRAME := 176
  const PUSH_HEADER_LEN := 8
  const REPLY_TAG_LEN := 4

  /** The longest body for a request that came direct (None) or by flood over a path of so many bytes. */
  function MaxReplyBody(path: Option<nat>): int
  {
    var route := if path.Some? then 1 + path.value + 1 else 0;
    var plain := Min(MAX_PACKET_PAYLOAD - RESP_HEADER_LEN,
      MAX_FRAME - PUSH_HEADER_LEN + route + REPLY_TAG_LEN) / CIPHER_BLOCK * CIPHER_BLOCK;
    if route == 0 then plain - REPLY_TAG_LEN
    else Min(plain - route, MAX_COMBINED_PATH - 5 - path.value) - REPLY_TAG_LEN
  }

  /** The 153 the channel map is budgeted from is what a direct route and a path of up to four bytes hold, and no
      longer path does; up to 64 bytes, the node's own eight always fit. */
  lemma BudgetHolds(path: nat)
    ensures MaxReplyBody(None) >= MAX_TELEMETRY_PAYLOAD + 8
    ensures MaxReplyBody(Some(path)) >= MAX_TELEMETRY_PAYLOAD + 8 <==> path <= 4
    ensures exists tight: nat :: tight <= 4 && MaxReplyBody(Some(tight)) == MAX_TELEMETRY_PAYLOAD + 8
    ensures path <= 64 ==> MaxReplyBody(Some(path)) >= 8
  {
    assert MaxReplyBody(Some(1)) == MAX_TELEMETRY_PAYLOAD + 8;
    if path >= 2 {
      assert MaxReplyBody(Some(path)) == 157 - path;
    }
  }

  /** The wanted rows take no more than their share of the map. */
  lemma {:induction false} RowsFitTheMap(entries: seq<Entry>, statuses: seq<Status>, w: Want)
    ensures |PutAll(Rows(entries, statuses, w))| <= MapSize(entries)
    decreases |entries|
  {
    hide WireInt;
    if entries != [] {
      var n := |entries| - 1;
      RowsFitTheMap(entries[..n], statuses, w);
      var before, rs := Rows(entries[..n], statuses, w), Rows(entries, statuses, w);
      if |rs| > |before| {
        assert rs[..|rs| - 1] == before;
      } else {
        assert rs == before;
      }
    }
  }

  lemma AtMostOneFits(rs: seq<Rec>)
    requires |rs| <= 1 && (rs != [] ==> Size(rs[0].kind) == 2)
    ensures |PutAll(rs)| <= 4
  {
    if rs != [] {
      assert rs[..0] == [];
      assert |PutAll(rs[..0])| == 0;
    }
  }

  /** Whatever is read and allowed, a valid map's reply is at most 153 bytes and without its sensors at most 8. */
  lemma ReplyFits(perms: Perms, self: SelfReadings, entries: seq<Entry>, statuses: seq<Status>)
    requires ValidMap(entries)
    ensures |PutAll(Reply(perms, self, entries, statuses, true))| <= MAX_TELEMETRY_PAYLOAD + 8
    ensures |PutAll(Reply(perms, self, entries, statuses, false))| <= 8
  {
    hide PutAll, Rows, OwnPart, RecOk;
    var battery := if perms.base then OwnPart(entries, statuses, Voltage, Some(self.batteryVolts)) else [];
    var board := if perms.base then OwnPart(entries, statuses, Temperature, self.tempC) else [];
    OwnPartIsOne(entries, statuses, Voltage, Some(self.batteryVolts));
    OwnPartIsOne(entries, statuses, Temperature, self.tempC);
    AtMostOneFits(battery);
    AtMostOneFits(board);
    RowsFitTheMap(entries, statuses, Sensors);
    PutNothing();
    var mapped := if perms.environment then Rows(entries, statuses, Sensors) else [];
    PutAllConcat(battery, mapped);
    PutAllConcat(battery + mapped, board);
    PutAllConcat(battery, []);
    PutAllConcat(battery + [], board);
  }

  /** So a valid map is never dropped from a direct reply or one over up to four path bytes, and whether it is
      dropped or not, up to 64 the body fits its packet. */
  lemma ValidMapIsSent(perms: Perms, self: SelfReadings, entries: seq<Entry>, statuses: seq<Status>, path: Option<nat>)
    requires ValidMap(entries)
    ensures path.None? || path.value <= 4 ==>
      |PutAll(Reply(perms, self, entries, statuses, true))| <= MaxReplyBody(path)
    ensures path.None? || path.value <= 64 ==>
      var dropped := |PutAll(Reply(perms, self, entries, statuses, true))| > MaxReplyBody(path);
      |PutAll(Reply(perms, self, entries, statuses, !dropped))| <= MaxReplyBody(path)
  {
    hide PutAll, Reply;
    ReplyFits(perms, self, entries, statuses);
    BudgetHolds(if path.Some? then path.value else 0);
  }

  /** A map all of whose sensors read fills exactly the share it was budgeted. */
  lemma {:induction false} ReadingMapFillsItsShare(entries: seq<Entry>, statuses: seq<Status>)
    requires forall i | 0 <= i < |entries| ::
      entries[i].channel != CHANNEL_SELF && Published(statuses, entries[i]).Some?
    ensures |PutAll(Rows(entries, statuses, Sensors))| == MapSize(entries)
    decreases |entries|
  {
    hide WireInt, PutRec, CodeOf;
    if entries != [] {
      var n := |entries| - 1;
      ReadingMapFillsItsShare(entries[..n], statuses);
      var rs := Rows(entries, statuses, Sensors);
      assert rs[..|rs| - 1] == Rows(entries[..n], statuses, Sensors);
    }
  }

  /** So many generic sensors, one a channel from channel 2 on. */
  function Generics(n: nat): seq<Entry>
    requires n <= 24
  {
    seq(n, i requires 0 <= i < n => Entry(i + 2, 100, 1, "v"))
  }

  lemma {:induction false} GenericsSize(n: nat)
    requires n <= 24
    ensures MapSize(Generics(n)) == 6 * n
    decreases n
  {
    if n > 0 {
      GenericsSize(n - 1);
      assert Generics(n)[..n - 1] == Generics(n - 1);
    }
  }

  /** 23 generic sensors, a temperature and a humidity: 145 bytes, the whole of the map's share. */
  function Brimming(): (entries: seq<Entry>)
    ensures |entries| == 25
    ensures forall i | 0 <= i < 25 ::
      entries[i] == Entry(i + 2, if i < 23 then 100 else if i == 23 then 103 else 104, 1, "v")
  {
    Generics(23) + [Entry(25, 103, 1, "v")] + [Entry(26, 104, 1, "v")]
  }

  lemma BrimmingIsValid()
    ensures ValidMap(Brimming()) && MapSize(Brimming()) == MAX_TELEMETRY_PAYLOAD
  {
    GenericsSize(23);
    var few := Generics(23) + [Entry(25, 103, 1, "v")];
    assert few[..23] == Generics(23) && Brimming()[..24] == few;
    assert MapSize(few) == 142 && MapSize(Brimming()) == 145;
  }

  /** Four path bytes are all that can be promised: one valid map of 25 rows, all reading, is dropped over any longer
      path. */
  lemma {:induction false} FiveIsTooFar() returns (self: SelfReadings, entries: seq<Entry>, statuses: seq<Status>)
    ensures ValidMap(entries)
    ensures forall path: nat | path > 4 ::
      |PutAll(Reply(Perms(true, true), self, entries, statuses, true))| > MaxReplyBody(Some(path))
  {
    self := SelfReadings(4.0, Some(20.0));
    statuses := [Status(1, [Reading("v", Number(1.0))], Some(0), "")];
    entries := Brimming();
    BrimmingIsValid();
    hide PutAll, Reply, Brimming, MapSize, WireInt;
    assert StatusOf(statuses, 1) == Some(statuses[0]);
    assert FirstReading(statuses[0].readings, "v") == Some(Number(1.0));
    FullReply(self, entries, statuses);
    forall path: nat | path > 4 ensures MaxReplyBody(Some(path)) < MAX_TELEMETRY_PAYLOAD + 8 {
      BudgetHolds(path);
    }
  }

  lemma FullReply(self: SelfReadings, entries: seq<Entry>, statuses: seq<Status>)
    requires forall i | 0 <= i < |entries| ::
      entries[i].channel != CHANNEL_SELF && Published(statuses, entries[i]).Some?
    requires self.tempC.Some?
    ensures |PutAll(Reply(Perms(true, true), self, entries, statuses, true))| == MapSize(entries) + 8
  {
    hide PutAll, Rows, PutRec, Published;
    var battery := [OwnRec(Voltage, self.batteryVolts)];
    var board := [OwnRec(Temperature, self.tempC.value)];
    var mapped := Rows(entries, statuses, Sensors);
    ReadingMapFillsItsShare(entries, statuses);
    PutAllConcat(battery, mapped);
    PutAllConcat(battery + mapped, board);
    OneRec(battery[0]);
    OneRec(board[0]);
    assert Reply(Perms(true, true), self, entries, statuses, true) == battery + mapped + board;
  }

  lemma OneRec(r: Rec)
    ensures |PutAll([r])| == 2 + Size(r.kind)
  {
    assert [r][..0] == [];
  }
}
