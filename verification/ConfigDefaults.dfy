/** A loaded config brought to its normal form (internal/config/config.go 189-382, internal/config/legacy.go 34-116,
    internal/config/mqtt.go 122-134, internal/config/scope.go 91-108). Settings no step here reads or writes are not
    part of this model. */
module ConfigDefaults {
  import opened Common
  import RegionTree

  type Region = RegionTree.Region

  // ---------------------------------------------------------------------------------------------
  // The config
  // ---------------------------------------------------------------------------------------------

  datatype ChannelRef = ChannelRef(name: string, privateKey: string, scope: string, slot: Option<int>)

  datatype Trigger = Trigger(template: string, channels: Option<seq<ChannelRef>>, scope: string)

  datatype Broker = Broker(name: string, transport: string, tls: bool, topicPrefix: string, packetTopic: string,
                           statusTopic: string)

  datatype Mqtt = Mqtt(node: Option<string>, iataCode: Option<string>, statusInterval: Option<int>,
                       owner: Option<string>, email: Option<string>, brokers: seq<Broker>)

  datatype Companion = Companion(name: string, privateKey: string, keyFile: string, latitude: Option<real>,
                                 longitude: Option<real>, advertInterval: Option<int>, scope: string,
                                 queueSize: int, channels: Option<seq<ChannelRef>>,
                                 triggers: Option<seq<Trigger>>, mqtt: Option<Mqtt>)

  datatype Repeater = Repeater(scope: string, defaultRegion: string, home: string, regions: seq<Region>)

  datatype FloodRegion = FloodRegion(name: string, parent: string)

  /** The settings of the radio and of the whole program. */
  datatype Settings = Settings(connectionType: Option<string>, setupComplete: Option<bool>, connection: Option<string>,
                               baudRate: Option<int>, freq: Option<real>, bw: Option<real>, sf: Option<int>,
                               cr: Option<int>, tx: Option<int>, scope: string)

  /** The blocks of the older file format. */
  datatype Bot = Bot(name: Option<string>, triggers: seq<Trigger>)

  datatype Advert = Advert(enabled: bool, interval: Option<int>, lat: Option<real>, lon: Option<real>)

  datatype Observer = Observer(name: Option<string>, iataCode: Option<string>, statusInterval: Option<int>,
                               owner: Option<string>, email: Option<string>, brokers: seq<Broker>,
                               advert: Option<Advert>, keyFile: Option<string>)

  datatype Legacy = Legacy(nodeType: Option<string>, bots: seq<Bot>, observers: seq<Observer>)

  datatype Data = Data(settings: Settings, companions: seq<Companion>, mqtt: Option<Mqtt>, repeater: Option<Repeater>,
                       floodRegions: seq<FloodRegion>, legacy: Legacy)

  const NEW_COMPANION := Companion("", "", "", None, None, None, "", 0, None, None, None)
  const NOTHING_LEGACY := Legacy(None, [], [])

  predicate Given(s: Option<string>) { s.Some? && s.value != "" }

  // ---------------------------------------------------------------------------------------------
  // The older format
  // ---------------------------------------------------------------------------------------------

  /** What an older bot becomes: all but its name and triggers is as in a new companion. */
  function FromBot(b: Bot): Companion
  {
    NEW_COMPANION.(name := if b.name.Some? then b.name.value else "",
                   triggers := if b.triggers != [] then Some(b.triggers) else None)
  }

  function FromBots(bots: seq<Bot>): (comps: seq<Companion>)
    ensures |comps| == |bots|
  {
    if bots == [] then [] else FromBots(bots[..|bots| - 1]) + [FromBot(bots[|bots| - 1])]
  }

  function LowerChar(c: char): char { if 'A' <= c <= 'Z' then c - 'A' + 'a' else c }

  function UpperChar(c: char): char { if 'a' <= c <= 'z' then c - 'a' + 'A' else c }

  /** Lower case; of letters beyond these none becomes a 'w' or an 's'. */
  function Lower(s: string): string { seq(|s|, i requires 0 <= i < |s| => LowerChar(s[i])) }

  /** The word, each letter of it large or small. */
  predicate IsAnyCase(s: string, word: string)
  {
    |s| == |word| && forall i | 0 <= i < |s| :: s[i] == word[i] || s[i] == UpperChar(word[i])
  }

  function WithTransport(b: Broker): Broker
  {
    if IsAnyCase(b.transport, "wss") then b.(transport := "websockets", tls := true)
    else if IsAnyCase(b.transport, "ws") then b.(transport := "websockets")
    else b
  }

  function WithTransports(brokers: seq<Broker>): (bs: seq<Broker>)
    ensures |bs| == |brokers|
  {
    if brokers == [] then [] else WithTransports(brokers[..|brokers| - 1]) + [WithTransport(brokers[|brokers| - 1])]
  }

  /** The first companion of the name, or how many there are. */
  function Named(companions: seq<Companion>, name: string, from: nat): (i: nat)
    requires from <= |companions|
    ensures from <= i <= |companions|
    ensures i < |companions| ==> companions[i].name == name
    ensures forall j | from <= j < i :: companions[j].name != name
    decreases |companions| - from
  {
    if from == |companions| || companions[from].name == name then from else Named(companions, name, from + 1)
  }

  /** The observer's identity and position, where the companion it feeds has none. */
  function Fed(c: Companion, o: Observer): Companion
  {
    var c := if c.privateKey == "" && c.keyFile == "" && o.keyFile.Some? then c.(keyFile := o.keyFile.value) else c;
    if o.advert.None? then c else
    var a := o.advert.value;
    c.(latitude := if c.latitude.None? then a.lat else c.latitude,
       longitude := if c.longitude.None? then a.lon else c.longitude,
       advertInterval := if c.advertInterval.None? && a.enabled && a.interval.Some? then a.interval
         else c.advertInterval)
  }

  function Attached(companions: seq<Companion>, name: string, o: Observer): seq<Companion>
  {
    var i := Named(companions, name, 0);
    if i < |companions| then companions[i := Fed(companions[i], o)]
    else companions + [Fed(NEW_COMPANION.(name := name), o)]
  }

  /** The older blocks folded into the present ones; of the observers the first wins, unless there is an mqtt block. */
  function Migrated(d: Data): Data
  {
    var settings :=
      if !Given(d.settings.connectionType) && Given(d.legacy.nodeType) then
        d.settings.(connectionType := d.legacy.nodeType)
      else d.settings;
    var companions := d.companions + FromBots(d.legacy.bots);
    if d.mqtt.Some? || d.legacy.observers == [] then
      d.(settings := settings, companions := companions, legacy := NOTHING_LEGACY)
    else
      var o := d.legacy.observers[0];
      var mqtt := Mqtt(o.name, o.iataCode, o.statusInterval, o.owner, o.email, WithTransports(o.brokers));
      d.(settings := settings, mqtt := Some(mqtt), legacy := NOTHING_LEGACY,
         companions := if Given(o.name) then Attached(companions, o.name.value, o) else companions)
  }

  // ---------------------------------------------------------------------------------------------
  // Settings
  // ---------------------------------------------------------------------------------------------

  const OPENHOP_BAUD_RATE := 921600

  predicate HasPrefix(s: string, prefix: string) { |s| >= |prefix| && s[..|prefix|] == prefix }

  predicate OpenhopSerial(connection: string) { HasPrefix(connection, "openhop:///") }

  function Or<T>(x: Option<T>, other: T): Option<T> { if x.Some? then x else Some(other) }

  function Filled(s: Settings): Settings
  {
    var connection := Or(s.connection, "serial:///dev/ttyACM0");
    Settings(if Given(s.connectionType) then s.connectionType else Some("kiss"), Or(s.setupComplete, false), connection,
             Or(s.baudRate, if OpenhopSerial(connection.value) then OPENHOP_BAUD_RATE else 115200),
             Or(s.freq, 917.375), Or(s.bw, 62.5), Or(s.sf, 7), Or(s.cr, 8), Or(s.tx, 22),
             if s.scope == "" then "everywhere" else s.scope)
  }

  // ---------------------------------------------------------------------------------------------
  // Companions
  // ---------------------------------------------------------------------------------------------

  const PUBLIC_CHANNEL := "Public"
  const APP_QUEUE_DEFAULT := 256

  predicate IsSpace(c: char)
  {
    '\t' <= c <= '\r' || c == ' ' || c == '\U{85}' || c == '\U{A0}' || c == '\U{1680}' || '\U{2000}' <= c <= '\U{200A}'
    || c == '\U{2028}' || c == '\U{2029}' || c == '\U{202F}' || c == '\U{205F}' || c == '\U{3000}'
  }

  predicate Blank(name: string) { forall i | 0 <= i < |name| :: IsSpace(name[i]) }

  predicate Has(channels: seq<ChannelRef>, name: string) { exists i :: 0 <= i < |channels| && channels[i].name == name }

  /** The channels a companion's triggers name, in order. */
  function Refs(triggers: seq<Trigger>): seq<ChannelRef>
  {
    if triggers == [] then [] else
    var last := triggers[|triggers| - 1];
    Refs(triggers[..|triggers| - 1]) + if last.channels.Some? then last.channels.value else []
  }

  /** The list with each ref it lacks, blank names left out. */
  function Joined(channels: seq<ChannelRef>, refs: seq<ChannelRef>): seq<ChannelRef>
  {
    if refs == [] then channels else
    var before, ref := Joined(channels, refs[..|refs| - 1]), refs[|refs| - 1];
    if Blank(ref.name) || Has(before, ref.name) then before
    else before + [ChannelRef(ref.name, ref.privateKey, "", None)]
  }

  function Channels(c: Companion): seq<ChannelRef> { if c.channels.Some? then c.channels.value else [] }

  function TriggerRefs(c: Companion): seq<ChannelRef> { if c.triggers.Some? then Refs(c.triggers.value) else [] }

  function WithTriggerChannels(c: Companion): Companion
  {
    var joined := Joined(Channels(c), TriggerRefs(c));
    if joined == Channels(c) then c else c.(channels := Some(joined))
  }

  function WithPublic(c: Companion): Companion
  {
    if Has(Channels(c), PUBLIC_CHANNEL) then c
    else c.(channels := Some([ChannelRef(PUBLIC_CHANNEL, "", "", None)] + Channels(c)))
  }

  function ScopedRefs(channels: seq<ChannelRef>): (scoped: seq<ChannelRef>)
    ensures |scoped| == |channels|
    ensures forall i | 0 <= i < |channels| :: scoped[i] == channels[i].(scope := ScopeOrInherit(channels[i].scope))
  {
    seq(|channels|, i requires 0 <= i < |channels| => channels[i].(scope := ScopeOrInherit(channels[i].scope)))
  }

  function ScopedTrigger(t: Trigger): Trigger
  {
    t.(scope := ScopeOrInherit(t.scope), channels := if t.channels.Some? then Some(ScopedRefs(t.channels.value))
      else None)
  }

  function ScopedTriggers(ts: seq<Trigger>): (scoped: seq<Trigger>)
    ensures |scoped| == |ts|
    ensures forall i | 0 <= i < |ts| :: scoped[i] == ScopedTrigger(ts[i])
  {
    seq(|ts|, i requires 0 <= i < |ts| => ScopedTrigger(ts[i]))
  }

  function Scoped(c: Companion): Companion
  {
    c.(scope := ScopeOrInherit(c.scope), queueSize := if c.queueSize == 0 then APP_QUEUE_DEFAULT else c.queueSize,
       channels := if c.channels.Some? then Some(ScopedRefs(c.channels.value)) else None,
       triggers := if c.triggers.Some? then Some(ScopedTriggers(c.triggers.value)) else None)
  }

  function Owned(c: Companion): Companion { WithPublic(WithTriggerChannels(c)) }

  function Whole(c: Companion): Companion { Scoped(Owned(c).(mqtt := None)) }

  function AllWhole(cs: seq<Companion>): (whole: seq<Companion>)
    ensures |whole| == |cs|
    ensures forall i | 0 <= i < |cs| :: whole[i] == Whole(cs[i])
  {
    seq(|cs|, i requires 0 <= i < |cs| => Whole(cs[i]))
  }

  /** The top-level mqtt block, or else the first a companion holds, fed by that companion. */
  function HoistedMqtt(mqtt: Option<Mqtt>, cs: seq<Companion>): Option<Mqtt>
  {
    if cs == [] then mqtt else
    var before, last := HoistedMqtt(mqtt, cs[..|cs| - 1]), cs[|cs| - 1];
    if before.None? && last.mqtt.Some? then Some(last.mqtt.value.(node := Some(last.name))) else before
  }

  function WithTopics(b: Broker): Broker
  {
    if b.topicPrefix == "" then b
    else b.(packetTopic := if b.packetTopic == "" then b.topicPrefix + "/{iata}/{pubkey}/packets" else b.packetTopic,
            statusTopic := if b.statusTopic == "" then b.topicPrefix + "/{iata}/{pubkey}/status" else b.statusTopic,
            topicPrefix := "")
  }

  function AllWithTopics(bs: seq<Broker>): (folded: seq<Broker>)
    ensures |folded| == |bs|
    ensures forall i | 0 <= i < |bs| :: folded[i] == WithTopics(bs[i])
  {
    seq(|bs|, i requires 0 <= i < |bs| => WithTopics(bs[i]))
  }

  function WithTopicsMqtt(m: Option<Mqtt>): Option<Mqtt>
  {
    if m.None? then None else Some(m.value.(brokers := AllWithTopics(m.value.brokers)))
  }

  // ---------------------------------------------------------------------------------------------
  // Regions
  // ---------------------------------------------------------------------------------------------

  const REGION_PREFIX := "region:"

  /** One leading "#" makes no other scope; the top and a private region have none. */
  function ScopeForRegionName(name: string): string
  {
    var bare := RegionTree.Bare(name);
    if bare == "" || bare == "*" || HasPrefix(name, "$") then "everywhere" else REGION_PREFIX + bare
  }

  predicate NamesRegion(scope: string, region: string)
  {
    HasPrefix(scope, REGION_PREFIX) && RegionTree.SameRegionName(region, scope[|REGION_PREFIX|..])
  }

  predicate AnyNamed(regions: seq<Region>, scope: string)
  {
    exists i :: 0 <= i < |regions| && NamesRegion(scope, regions[i].name)
  }

  /** The older default region becomes the scope, and an entry when there is none. */
  function WithScope(r: Repeater): Repeater
  {
    if r.scope != "" then r else
    var scope := ScopeForRegionName(r.defaultRegion);
    r.(scope := scope, defaultRegion := "",
       regions := if HasPrefix(scope, REGION_PREFIX) && !AnyNamed(r.regions, scope)
                  then r.regions + [RegionTree.Region(r.defaultRegion, "*", false)] else r.regions)
  }

  function TopFloodRegions(rs: seq<FloodRegion>): (topped: seq<FloodRegion>)
    ensures |topped| == |rs|
    ensures forall i | 0 <= i < |rs| :: topped[i] == rs[i].(parent := if rs[i].parent == "" then "*" else rs[i].parent)
  {
    seq(|rs|, i requires 0 <= i < |rs| => rs[i].(parent := if rs[i].parent == "" then "*" else rs[i].parent))
  }

  function Topped(r: Region): Region
  {
    if r.parent == "" && r.name != "*" then r.(parent := "*") else r
  }

  function AllTopped(rs: seq<Region>): (topped: seq<Region>)
    ensures |topped| == |rs|
    ensures forall i | 0 <= i < |rs| :: topped[i] == Topped(rs[i])
  {
    seq(|rs|, i requires 0 <= i < |rs| => Topped(rs[i]))
  }

  /** A name as the first n regions write it: each one that is the same region but for a "#" gives it its own
      spelling. */
  function AsWritten(rs: seq<Region>, n: nat, name: string): string
    requires n <= |rs|
  {
    if n == 0 then name else
    var before := AsWritten(rs, n - 1, name);
    if before != "" && RegionTree.SameRegionName(rs[n - 1].name, before) then rs[n - 1].name else before
  }

  function AllAsWritten(rs: seq<Region>): (written: seq<Region>)
    ensures |written| == |rs|
    ensures forall i | 0 <= i < |rs| :: written[i] == rs[i].(parent := AsWritten(rs, |rs|, rs[i].parent))
  {
    seq(|rs|, i requires 0 <= i < |rs| => rs[i].(parent := AsWritten(rs, |rs|, rs[i].parent)))
  }

  function Settled(r: Repeater): Repeater
  {
    var rs := AllTopped(WithScope(r).regions);
    WithScope(r).(home := AsWritten(rs, |rs|, r.home), regions := AllAsWritten(rs))
  }

  function Defaulted(d0: Data): Data
  {
    var d := Migrated(d0);
    Data(Filled(d.settings), AllWhole(d.companions), WithTopicsMqtt(HoistedMqtt(d.mqtt, d.companions)),
         if d.repeater.Some? then Some(Settled(d.repeater.value)) else None, TopFloodRegions(d.floodRegions), d.legacy)
  }

  // ---------------------------------------------------------------------------------------------
  // What a companion has afterwards
  // ---------------------------------------------------------------------------------------------

  ghost predicate ListsTriggerChannels(channels: seq<ChannelRef>, refs: seq<ChannelRef>)
  {
    forall k | 0 <= k < |refs| :: Blank(refs[k].name) || Has(channels, refs[k].name)
  }

  /** Joining keeps the list as it was at its head, adds only names it lacked, each once, and leaves none out. */
  lemma {:induction false} JoinedHolds(channels: seq<ChannelRef>, refs: seq<ChannelRef>)
    ensures var joined := Joined(channels, refs);
      && |channels| <= |joined| && joined[..|channels|] == channels
      && ListsTriggerChannels(joined, refs)
      && (forall i, j | 0 <= i < j < |joined| && |channels| <= j :: joined[i].name != joined[j].name)
    decreases |refs|
  {
    if refs != [] {
      var n := |refs| - 1;
      JoinedHolds(channels, refs[..n]);
      var before, joined := Joined(channels, refs[..n]), Joined(channels, refs);
      forall k | 0 <= k < |refs| ensures Blank(refs[k].name) || Has(joined, refs[k].name) {
        if k < n {
          assert refs[..n][k] == refs[k];
          if i :| 0 <= i < |before| && before[i].name == refs[k].name {
            assert joined[i].name == refs[k].name;
          }
        } else if !Blank(refs[n].name) && !Has(before, refs[n].name) {
          assert joined[|before|].name == refs[n].name;
        }
      }
    }
  }

  lemma {:induction false} JoinedNothing(channels: seq<ChannelRef>, refs: seq<ChannelRef>)
    requires ListsTriggerChannels(channels, refs)
    ensures Joined(channels, refs) == channels
    decreases |refs|
  {
    if refs != [] {
      var n := |refs| - 1;
      forall k | 0 <= k < n ensures Blank(refs[..n][k].name) || Has(channels, refs[..n][k].name) {
        assert refs[..n][k] == refs[k];
      }
      JoinedNothing(channels, refs[..n]);
      assert Blank(refs[n].name) || Has(channels, refs[n].name);
    }
  }

  predicate SameNames(a: seq<ChannelRef>, b: seq<ChannelRef>)
  {
    |a| == |b| && forall i | 0 <= i < |a| :: a[i].name == b[i].name
  }

  lemma SameNamesSameHas(a: seq<ChannelRef>, b: seq<ChannelRef>, name: string)
    requires SameNames(a, b)
    ensures Has(a, name) ==> Has(b, name)
  {
    if i :| 0 <= i < |a| && a[i].name == name {
      assert b[i].name == name;
    }
  }

  lemma {:induction false} ScopingKeepsRefs(ts: seq<Trigger>)
    ensures SameNames(Refs(ts), Refs(ScopedTriggers(ts)))
    decreases |ts|
  {
    if ts != [] {
      var n := |ts| - 1;
      ScopingKeepsRefs(ts[..n]);
      assert ScopedTriggers(ts)[..n] == ScopedTriggers(ts[..n]);
    }
  }

  /** Owned lists are complete: Public is in, and every channel a trigger names. */
  lemma OwnedIsComplete(c: Companion)
    ensures var o := Owned(c);
      o.channels.Some? && Has(Channels(o), PUBLIC_CHANNEL) &&
      ListsTriggerChannels(Channels(o), TriggerRefs(c))
    ensures TriggerRefs(Owned(c)) == TriggerRefs(c)
  {
    var w := WithTriggerChannels(c);
    JoinedHolds(Channels(c), TriggerRefs(c));
    var o := Channels(Owned(c));
    if !Has(Channels(w), PUBLIC_CHANNEL) {
      assert o[0].name == PUBLIC_CHANNEL;
      forall k | 0 <= k < |TriggerRefs(c)| && !Blank(TriggerRefs(c)[k].name) ensures Has(o, TriggerRefs(c)[k].name) {
        var i :| 0 <= i < |Channels(w)| && Channels(w)[i].name == TriggerRefs(c)[k].name;
        assert o[i + 1].name == TriggerRefs(c)[k].name;
      }
    }
  }

  /** Scopes left out are filled at every level. */
  ghost predicate ScopesAreSet(c: Companion)
  {
    && c.scope != "" && (forall i | 0 <= i < |Channels(c)| :: Channels(c)[i].scope != "")
    && (c.triggers.Some? ==> forall i | 0 <= i < |c.triggers.value| :: TriggerScopesAreSet(c.triggers.value[i]))
  }

  ghost predicate TriggerScopesAreSet(t: Trigger)
  {
    t.scope != "" && (t.channels.Some? ==> forall i | 0 <= i < |t.channels.value| :: t.channels.value[i].scope != "")
  }

  ghost predicate Complete(c: Companion)
  {
    && c.channels.Some? && Has(Channels(c), PUBLIC_CHANNEL) && ListsTriggerChannels(Channels(c), TriggerRefs(c))
    && ScopesAreSet(c) && c.mqtt.None? && c.queueSize != 0
  }

  lemma WholeIsComplete(c: Companion)
    ensures Complete(Whole(c))
  {
    var o, w := Owned(c).(mqtt := None), Whole(c);
    OwnedIsComplete(c);
    assert SameNames(Channels(o), Channels(w));
    SameNamesSameHas(Channels(o), Channels(w), PUBLIC_CHANNEL);
    if c.triggers.Some? {
      ScopingKeepsRefs(c.triggers.value);
    }
    assert SameNames(TriggerRefs(c), TriggerRefs(w));
    forall k | 0 <= k < |TriggerRefs(w)| && !Blank(TriggerRefs(w)[k].name)
      ensures Has(Channels(w), TriggerRefs(w)[k].name) {
      assert TriggerRefs(c)[k].name == TriggerRefs(w)[k].name;
      SameNamesSameHas(Channels(o), Channels(w), TriggerRefs(c)[k].name);
    }
  }

  /** A complete companion is left as it is. */
  lemma CompleteIsLeftAlone(c: Companion)
    requires Complete(c)
    ensures Whole(c) == c
  {
    JoinedNothing(Channels(c), TriggerRefs(c));
    assert Owned(c) == c;
    assert ScopedRefs(Channels(c)) == Channels(c);
    if c.triggers.Some? {
      var ts := c.triggers.value;
      forall i | 0 <= i < |ts| ensures ScopedTrigger(ts[i]) == ts[i] {
        assert TriggerScopesAreSet(ts[i]);
        if ts[i].channels.Some? { assert ScopedRefs(ts[i].channels.value) == ts[i].channels.value; }
      }
      assert ScopedTriggers(ts) == ts;
    }
  }

  // ---------------------------------------------------------------------------------------------
  // Region names as they are written
  // ---------------------------------------------------------------------------------------------

  lemma {:induction false} AsWrittenByName(a: seq<Region>, b: seq<Region>, n: nat, name: string)
    requires n <= |a| == |b| && forall i | 0 <= i < n :: a[i].name == b[i].name
    ensures AsWritten(a, n, name) == AsWritten(b, n, name)
  {
    if n > 0 { AsWrittenByName(a, b, n - 1, name); }
  }

  /** A name ends as another spelling of itself, or lost. */
  lemma {:induction false} AsWrittenIsTheSame(rs: seq<Region>, n: nat, name: string)
    requires n <= |rs|
    ensures AsWritten(rs, n, name) == "" || RegionTree.SameRegionName(AsWritten(rs, n, name), name)
  {
    if n > 0 { AsWrittenIsTheSame(rs, n - 1, name); }
  }

  /** Two spellings end alike, or as they were. */
  lemma {:induction false} SpellingsAgree(rs: seq<Region>, n: nat, a: string, b: string)
    requires n <= |rs| && a != "" && b != "" && RegionTree.SameRegionName(a, b)
    ensures AsWritten(rs, n, a) == AsWritten(rs, n, b) || (AsWritten(rs, n, a) == a && AsWritten(rs, n, b) == b)
  {
    if n > 0 { SpellingsAgree(rs, n - 1, a, b); }
  }

  lemma {:induction false} NothingIsWrittenAsNothing(rs: seq<Region>, n: nat)
    requires n <= |rs|
    ensures AsWritten(rs, n, "") == ""
  {
    if n > 0 { NothingIsWrittenAsNothing(rs, n - 1); }
  }

  lemma AsWrittenTwice(rs: seq<Region>, n: nat, name: string)
    requires n <= |rs|
    ensures AsWritten(rs, n, AsWritten(rs, n, name)) == AsWritten(rs, n, name)
  {
    var once := AsWritten(rs, n, name);
    NothingIsWrittenAsNothing(rs, n);
    AsWrittenIsTheSame(rs, n, name);
    if name != "" && once != "" {
      SpellingsAgree(rs, n, name, once);
    }
  }

  predicate HasUnnamed(rs: seq<Region>, n: nat)
    requires n <= |rs|
  {
    exists i :: 0 <= i < n && rs[i].name == ""
  }

  /** A name is lost exactly when it is "#" and some region has none. */
  lemma {:induction false} LostExactly(rs: seq<Region>, n: nat, name: string)
    requires n <= |rs| && name != ""
    ensures AsWritten(rs, n, name) == "" <==> name == "#" && HasUnnamed(rs, n)
    ensures name == "#" && !HasUnnamed(rs, n) ==> AsWritten(rs, n, name) == "#"
  {
    if n > 0 {
      LostExactly(rs, n - 1, name);
      AsWrittenIsTheSame(rs, n - 1, name);
      var before, last := AsWritten(rs, n - 1, name), rs[n - 1].name;
      assert HasUnnamed(rs, n) <==> HasUnnamed(rs, n - 1) || last == "";
      if before != "" && RegionTree.SameRegionName(last, before) {
        EmptyBare(last);
        EmptyBare(before);
        EmptyBare(name);
      }
    }
  }

  lemma EmptyBare(name: string)
    ensures RegionTree.Bare(name) == "" <==> name == "" || name == "#"
  {
  }

  lemma {:induction false} TopIsWrittenAsTop(rs: seq<Region>, n: nat)
    requires n <= |rs|
    ensures AsWritten(rs, n, "*") == "*"
  {
    if n > 0 { TopIsWrittenAsTop(rs, n - 1); }
  }

  /** A region other than the top one whose parent is "#", and a region with no name. */
  predicate LosesAParent(r: Repeater)
  {
    HasUnnamed(r.regions, |r.regions|) &&
    exists i :: 0 <= i < |r.regions| && r.regions[i].name != "*" && r.regions[i].parent == "#"
  }

  lemma SettledKeepsNames(r: Repeater)
    ensures var w, s := WithScope(r).regions, Settled(r).regions;
      && |w| == |s| && (forall i | 0 <= i < |w| :: w[i].name == s[i].name)
      && |r.regions| <= |w| && w[..|r.regions|] == r.regions
    ensures Settled(r).scope != "" && WithScope(Settled(r)) == Settled(r)
    ensures HasUnnamed(WithScope(r).regions, |WithScope(r).regions|) <==> HasUnnamed(r.regions, |r.regions|)
  {
    var w := WithScope(r).regions;
    assert w == r.regions || w == r.regions + [RegionTree.Region(r.defaultRegion, "*", false)];
    assert !HasPrefix("everywhere", REGION_PREFIX) by { assert "everywhere"[..7][0] == 'e' && REGION_PREFIX[0] == 'r'; }
    EmptyBare(r.defaultRegion);
    if i :| 0 <= i < |w| && w[i].name == "" {
      assert i < |r.regions| ==> r.regions[i].name == "";
    }
    if i :| 0 <= i < |r.regions| && r.regions[i].name == "" {
      assert w[i].name == "";
    }
  }

  /** Which parent a settled region has none of. */
  lemma SettledParentIsEmpty(r: Repeater, i: nat)
    requires i < |WithScope(r).regions|
    ensures var w, s := WithScope(r).regions[i], Settled(r).regions[i];
      s.parent == "" && s.name != "*" <==> w.name != "*" && w.parent == "#" && HasUnnamed(r.regions, |r.regions|)
  {
    var w := WithScope(r).regions;
    var rs := AllTopped(w);
    SettledKeepsNames(r);
    UnnamedByName(w, rs);
    if rs[i].parent == "" {
      NothingIsWrittenAsNothing(rs, |rs|);
    } else {
      LostExactly(rs, |rs|, rs[i].parent);
    }
  }

  lemma UnnamedByName(a: seq<Region>, b: seq<Region>)
    requires |a| == |b| && forall i | 0 <= i < |a| :: a[i].name == b[i].name
    ensures HasUnnamed(a, |a|) <==> HasUnnamed(b, |b|)
  {
    if i :| 0 <= i < |a| && a[i].name == "" { assert b[i].name == ""; }
    if i :| 0 <= i < |b| && b[i].name == "" { assert a[i].name == ""; }
  }

  predicate ParentsAreSet(r: Repeater)
  {
    forall i | 0 <= i < |r.regions| :: r.regions[i].name != "*" ==> r.regions[i].parent != ""
  }

  /** Every settled region but the top one has a parent, exactly when none loses it. */
  lemma ParentsAreSetExactly(r: Repeater)
    ensures ParentsAreSet(Settled(r)) <==> !LosesAParent(r)
  {
    SettledKeepsNames(r);
    ScopeRegionIsUnderTop(r);
    hide Settled, WithScope, HasUnnamed;
    var w, s := WithScope(r).regions, Settled(r).regions;
    forall i | 0 <= i < |w|
      ensures s[i].parent == "" && s[i].name != "*" <==>
        w[i].name != "*" && w[i].parent == "#" && HasUnnamed(r.regions, |r.regions|)
    {
      SettledParentIsEmpty(r, i);
    }
    if i :| LosesAParent(r) && 0 <= i < |r.regions| && r.regions[i].name != "*" && r.regions[i].parent == "#" {
      assert w[i] == r.regions[i] && s[i].parent == "" && s[i].name != "*";
    }
  }

  lemma SettledAgainMoves(r: Repeater)
    requires LosesAParent(r)
    ensures Settled(Settled(r)) != Settled(r)
  {
    var w, s := WithScope(r).regions, Settled(r);
    var again := AllTopped(s.regions);
    SettledKeepsNames(r);
    var i :| 0 <= i < |r.regions| && r.regions[i].name != "*" && r.regions[i].parent == "#";
    assert w[i] == r.regions[i];
    SettledParentIsEmpty(r, i);
    TopIsWrittenAsTop(again, |again|);
    assert Settled(s).regions[i].parent == "*";
  }

  lemma ScopeRegionIsUnderTop(r: Repeater)
    ensures var w := WithScope(r).regions; |r.regions| <= |w|
    ensures var w := WithScope(r).regions;
      forall i | 0 <= i < |w| :: if i < |r.regions| then w[i] == r.regions[i] else w[i].parent == "*"
  {
  }

  lemma SettledIsTopped(r: Repeater)
    requires !LosesAParent(r)
    ensures AllTopped(Settled(r).regions) == Settled(r).regions
  {
    SettledKeepsNames(r);
    ScopeRegionIsUnderTop(r);
    hide Settled, WithScope, AsWritten, RegionTree.SameRegionName;
    var w, s := WithScope(r).regions, Settled(r);
    forall i | 0 <= i < |w| ensures Topped(s.regions[i]) == s.regions[i] {
      SettledParentIsEmpty(r, i);
    }
  }

  lemma SettledAgainStays(r: Repeater)
    requires !LosesAParent(r)
    ensures Settled(Settled(r)) == Settled(r)
  {
    var s := Settled(r);
    var rs, again := AllTopped(WithScope(r).regions), s.regions;
    SettledKeepsNames(r);
    SettledIsTopped(r);
    hide Topped, LosesAParent;
    forall i | 0 <= i < |again| ensures AsWritten(again, |again|, again[i].parent) == again[i].parent {
      AsWrittenByName(again, rs, |rs|, again[i].parent);
      AsWrittenTwice(rs, |rs|, rs[i].parent);
    }
    AsWrittenByName(again, rs, |rs|, s.home);
    AsWrittenTwice(rs, |rs|, WithScope(r).home);
    assert AllAsWritten(again) == again;
  }

  lemma {:induction false} SettledTwice(r: Repeater)
    ensures Settled(Settled(r)) == Settled(r) <==> !LosesAParent(r)
  {
    hide Settled, LosesAParent;
    if LosesAParent(r) {
      SettledAgainMoves(r);
    } else {
      SettledAgainStays(r);
    }
  }

  // ---------------------------------------------------------------------------------------------
  // The whole config
  // ---------------------------------------------------------------------------------------------

  lemma {:induction false} NothingToHoist(mqtt: Option<Mqtt>, cs: seq<Companion>)
    requires forall i | 0 <= i < |cs| :: cs[i].mqtt.None?
    ensures HoistedMqtt(mqtt, cs) == mqtt
    decreases |cs|
  {
    if cs != [] { NothingToHoist(mqtt, cs[..|cs| - 1]); }
  }

  /** With no top-level block the first a companion holds is taken, fed by that companion. */
  lemma {:induction false} HoistedIsTheFirst(cs: seq<Companion>) returns (i: nat)
    ensures HoistedMqtt(None, cs).None? ==> forall j | 0 <= j < |cs| :: cs[j].mqtt.None?
    ensures HoistedMqtt(None, cs).Some? ==> i < |cs| && cs[i].mqtt.Some? && forall j | 0 <= j < i :: cs[j].mqtt.None?
    ensures HoistedMqtt(None, cs).Some? ==> HoistedMqtt(None, cs) == Some(cs[i].mqtt.value.(node := Some(cs[i].name)))
    decreases |cs|
  {
    i := 0;
    if cs != [] {
      i := HoistedIsTheFirst(cs[..|cs| - 1]);
      if HoistedMqtt(None, cs[..|cs| - 1]).None? { i := |cs| - 1; }
    }
  }

  /** After loading, every companion is complete, nothing of the older format is left, and no scope is unset, nor any
      flood region's parent; a repeater region's is exactly when its parent was "#" beside a region with no name. */
  lemma DefaultedIsComplete(d: Data)
    ensures var r := Defaulted(d);
      && (forall i | 0 <= i < |r.companions| :: Complete(r.companions[i]))
      && r.legacy == NOTHING_LEGACY && r.settings.scope != "" && Given(r.settings.connectionType)
      && (r.mqtt.Some? ==> forall i | 0 <= i < |r.mqtt.value.brokers| :: r.mqtt.value.brokers[i].topicPrefix == "")
      && (r.repeater.Some? ==> r.repeater.value.scope != "")
      && (forall i | 0 <= i < |r.floodRegions| :: r.floodRegions[i].parent != "")
    ensures d.repeater.Some? ==>
      Defaulted(d).repeater.Some? && (ParentsAreSet(Defaulted(d).repeater.value) <==> !LosesAParent(d.repeater.value))
  {
    var cs := Migrated(d).companions;
    forall i | 0 <= i < |cs| ensures Complete(Whole(cs[i])) {
      WholeIsComplete(cs[i]);
    }
    if d.repeater.Some? {
      SettledKeepsNames(d.repeater.value);
      ParentsAreSetExactly(d.repeater.value);
    }
    hide Settled, WithScope, ParentsAreSet, LosesAParent;
  }

  /** Loading a loaded config changes nothing, unless a repeater region's parent was "#" beside a region with no name:
      exactly then the parent, lost the first time, is the top the second. */
  lemma {:induction false} DefaultedTwice(d: Data)
    ensures Defaulted(Defaulted(d)) == Defaulted(d) <==> !(d.repeater.Some? && LosesAParent(d.repeater.value))
  {
    var r := Defaulted(d);
    DefaultedIsComplete(d);
    assert r.companions + FromBots([]) == r.companions;
    assert Migrated(r) == r;
    forall i | 0 <= i < |r.companions| ensures Whole(r.companions[i]) == r.companions[i] {
      assert Complete(r.companions[i]);
      CompleteIsLeftAlone(r.companions[i]);
    }
    assert AllWhole(r.companions) == r.companions;
    NothingToHoist(r.mqtt, r.companions);
    if r.mqtt.Some? { assert AllWithTopics(r.mqtt.value.brokers) == r.mqtt.value.brokers; }
    assert TopFloodRegions(r.floodRegions) == r.floodRegions;
    if d.repeater.Some? { SettledTwice(d.repeater.value); }
  }

  /** It happens: a region under "#", beside one without a name. */
  lemma {:induction false} ALoadThatChangesAgain() returns (r: Repeater)
    ensures Settled(Settled(r)) != Settled(r)
  {
    r := Repeater("everywhere", "", "", [RegionTree.Region("", "*", false), RegionTree.Region("nz", "#", false)]);
    assert r.regions[0].name == "" && r.regions[1].name != "*" && r.regions[1].parent == "#";
    SettledTwice(r);
  }

  // ---------------------------------------------------------------------------------------------
  // What loading keeps
  // ---------------------------------------------------------------------------------------------

  /** What a companion says of itself an observer never overrides. */
  ghost predicate KeepsItsOwn(was: Companion, now: Companion)
  {
    && now.name == was.name && now.privateKey == was.privateKey && now.channels == was.channels &&
      now.triggers == was.triggers
    && now.mqtt == was.mqtt && now.scope == was.scope && now.queueSize == was.queueSize
    && (was.keyFile != "" || was.privateKey != "" ==> now.keyFile == was.keyFile)
    && (was.latitude.Some? ==> now.latitude == was.latitude) && (was.longitude.Some? ==> now.longitude == was.longitude)
    && (was.advertInterval.Some? ==> now.advertInterval == was.advertInterval)
  }

  lemma {:induction false} BotsInOrder(bots: seq<Bot>, i: nat)
    requires i < |bots|
    ensures FromBots(bots)[i] == FromBot(bots[i])
    decreases |bots|
  {
    if i < |bots| - 1 { BotsInOrder(bots[..|bots| - 1], i); }
  }

  /** Folding the older blocks in loses no companion and no bot, and changes nothing they had. */
  lemma {:induction false} MigrationLosesNothing(d: Data, i: nat)
    requires i < |d.companions| + |d.legacy.bots|
    ensures |Migrated(d).companions| >= |d.companions| + |d.legacy.bots|
    ensures KeepsItsOwn(if i < |d.companions| then d.companions[i] else FromBot(d.legacy.bots[i - |d.companions|]),
                        Migrated(d).companions[i])
    ensures d.mqtt.Some? ==> Migrated(d).mqtt == d.mqtt
  {
    if i >= |d.companions| {
      BotsInOrder(d.legacy.bots, i - |d.companions|);
    }
    var companions := d.companions + FromBots(d.legacy.bots);
    FedKeepsItsOwn(companions[i], if d.legacy.observers != [] then Some(d.legacy.observers[0]) else None);
    hide Given, Fed, KeepsItsOwn, FromBots, FromBot, Named;
  }

  lemma FedKeepsItsOwn(c: Companion, o: Option<Observer>)
    ensures KeepsItsOwn(c, c) && (o.Some? ==> KeepsItsOwn(c, Fed(c, o.value)))
  {
  }

  /** An observer that is used feeds a companion of its name, which has its key unless it had one. */
  lemma {:induction false} ObserverFeedsItsCompanion(d: Data) returns (i: nat)
    requires d.mqtt.None? && d.legacy.observers != [] && Given(d.legacy.observers[0].name)
    ensures var o, m := d.legacy.observers[0], Migrated(d);
      && m.mqtt.Some? && m.mqtt.value.node == o.name && |m.mqtt.value.brokers| == |o.brokers|
      && i < |m.companions| && m.companions[i].name == o.name.value &&
        (forall j | 0 <= j < i :: m.companions[j].name != o.name.value)
      && (o.keyFile.Some? ==>
        m.companions[i].privateKey != "" || m.companions[i].keyFile != "" ||
        o.keyFile.value == "")
  {
    i := Named(d.companions + FromBots(d.legacy.bots), d.legacy.observers[0].name.value, 0);
  }

  /** A setting that is given is kept, and one that is not is filled in. */
  lemma FilledKeepsWhatIsGiven(s: Settings)
    ensures var f := Filled(s);
      && (Given(s.connectionType) ==> f.connectionType == s.connectionType) &&
        (s.setupComplete.Some? ==> f.setupComplete == s.setupComplete)
      && (s.connection.Some? ==> f.connection == s.connection) && (s.baudRate.Some? ==> f.baudRate == s.baudRate)
      && (s.freq.Some? ==> f.freq == s.freq) && (s.bw.Some? ==> f.bw == s.bw) && (s.sf.Some? ==> f.sf == s.sf)
      && (s.cr.Some? ==> f.cr == s.cr) && (s.tx.Some? ==> f.tx == s.tx) && (s.scope != "" ==> f.scope == s.scope)
    ensures var f := Filled(s);
      && f.setupComplete.Some? && f.connection.Some? && f.baudRate.Some? && f.freq.Some? && f.bw.Some? && f.sf.Some? &&
        f.cr.Some? && f.tx.Some?
      && (s.baudRate.None? && OpenhopSerial(f.connection.value) ==> f.baudRate == Some(OPENHOP_BAUD_RATE))
  {
  }

  /** An older default region that is a region becomes a scope the repeater serves, unless it begins "##" and no
      region has it: the entry made for it is then another region. */
  lemma FoldedScopeIsServed(r: Repeater)
    requires r.scope == "" && HasPrefix(WithScope(r).scope, REGION_PREFIX)
    ensures AnyNamed(WithScope(r).regions, WithScope(r).scope) <==>
            AnyNamed(r.regions, WithScope(r).scope) || !HasPrefix(r.defaultRegion, "##")
  {
    var scope, w, bare := WithScope(r).scope, WithScope(r).regions, RegionTree.Bare(r.defaultRegion);
    assert !HasPrefix("everywhere", REGION_PREFIX) by { assert "everywhere"[..7][0] == 'e' && REGION_PREFIX[0] == 'r'; }
    assert scope[|REGION_PREFIX|..] == bare && HasPrefix(scope, REGION_PREFIX);
    if !AnyNamed(r.regions, scope) {
      var last := |w| - 1;
      assert forall i | 0 <= i < last :: w[i] == r.regions[i];
      assert AnyNamed(w, scope) <==> NamesRegion(scope, w[last].name);
      assert w[last].name == r.defaultRegion;
      DoubleHash(r.defaultRegion);
    }
  }

  lemma DoubleHash(name: string)
    requires RegionTree.Bare(name) != "" && RegionTree.Bare(name) != "*"
    ensures RegionTree.SameRegionName(name, RegionTree.Bare(name)) <==> !HasPrefix(name, "##")
  {
    var bare := RegionTree.Bare(name);
    assert HasPrefix(name, "##") <==> name[0] == '#' && bare[0] == '#';
    if bare[0] == '#' {
      assert |RegionTree.Bare(bare)| < |bare|;
    }
  }

  /** A companion's own channels stay together and in order, Public at most coming before them. */
  lemma OwnedKeepsTheList(c: Companion)
    ensures var own, all := Channels(c), Channels(Owned(c));
      (|own| <= |all| && all[..|own|] == own) ||
        (|own| < |all| && all[0].name == PUBLIC_CHANNEL && all[1..|own| + 1] == own)
  {
    JoinedHolds(Channels(c), TriggerRefs(c));
    var joined := Channels(WithTriggerChannels(c));
    if !Has(joined, PUBLIC_CHANNEL) {
      var all := Channels(Owned(c));
      assert all == [ChannelRef(PUBLIC_CHANNEL, "", "", None)] + joined;
      assert all[1..|Channels(c)| + 1] == joined[..|Channels(c)|];
    }
  }

  // ---------------------------------------------------------------------------------------------
  // The loading itself
  // ---------------------------------------------------------------------------------------------

  ghost predicate Names(channels: seq<ChannelRef>, have: set<string>)
  {
    forall name :: name in have <==> Has(channels, name)
  }

  lemma NamesOneMore(channels: seq<ChannelRef>, have: set<string>, c: ChannelRef)
    requires Names(channels, have)
    ensures Names(channels + [c], have + {c.name})
  {
    var more := channels + [c];
    forall name ensures name in have + {c.name} <==> Has(more, name) {
      if i :| 0 <= i < |channels| && channels[i].name == name { assert more[i].name == name; }
      assert more[|channels|].name == c.name;
    }
  }

  lemma HaveMeansHas(channels: seq<ChannelRef>, have: set<string>, name: string)
    requires Names(channels, have)
    ensures name in have <==> Has(channels, name)
  {
  }

  lemma JoinedOneMore(channels: seq<ChannelRef>, refs: seq<ChannelRef>, ref: ChannelRef)
    ensures var before := Joined(channels, refs);
      Joined(channels, refs + [ref]) ==
      if Blank(ref.name) || Has(before, ref.name) then before
      else before + [ChannelRef(ref.name, ref.privateKey, "", None)]
  {
    assert (refs + [ref])[..|refs|] == refs;
  }

  /** Adds the refs of one trigger that the list lacks. */
  method AddRefs(ghost base: seq<ChannelRef>, ghost before: seq<ChannelRef>, refs: seq<ChannelRef>,
                 channels0: seq<ChannelRef>, have0: set<string>)
    returns (channels: seq<ChannelRef>, have: set<string>)
    requires channels0 == Joined(base, before) && Names(channels0, have0)
    ensures channels == Joined(base, before + refs) && Names(channels, have)
  {
    channels, have := channels0, have0;
    assert before + refs[..0] == before;
    for k := 0 to |refs|
      invariant channels == Joined(base, before + refs[..k]) && Names(channels, have)
    {
      hide Joined, Names, Has, Blank;
      assert before + refs[..k + 1] == before + refs[..k] + [refs[k]];
      JoinedOneMore(base, before + refs[..k], refs[k]);
      HaveMeansHas(channels, have, refs[k].name);
      if Blank(refs[k].name) || refs[k].name in have {
        continue;
      }
      NamesOneMore(channels, have, ChannelRef(refs[k].name, refs[k].privateKey, "", None));
      have := have + {refs[k].name};
      channels := channels + [ChannelRef(refs[k].name, refs[k].privateKey, "", None)];
    }
    assert refs[..|refs|] == refs;
  }

  /** Copies the channels a companion's triggers name into its own list. */
  method EnsureTriggerChannels(c: Companion) returns (r: Companion)
    ensures r == WithTriggerChannels(c)
  {
    r := c;
    if c.triggers.None? {
      return;
    }
    var ts, channels := c.triggers.value, Channels(c);
    var have := set i | 0 <= i < |channels| :: channels[i].name;
    for i := 0 to |ts|
      invariant channels == Joined(Channels(c), Refs(ts[..i])) && Names(channels, have)
    {
      hide Names, Joined;
      assert ts[..i + 1][..i] == ts[..i];
      if ts[i].channels.None? {
        assert Refs(ts[..i]) + [] == Refs(ts[..i]);
        continue;
      }
      channels, have := AddRefs(Channels(c), Refs(ts[..i]), ts[i].channels.value, channels, have);
    }
    assert ts[..|ts|] == ts;
    if channels != Channels(c) {
      r := c.(channels := Some(channels));
    }
  }

  /** A companion is always in the public channel. */
  method EnsurePublicChannel(c: Companion) returns (r: Companion)
    ensures r == WithPublic(c)
  {
    if c.channels.None? {
      assert [ChannelRef(PUBLIC_CHANNEL, "", "", None)] + [] == [ChannelRef(PUBLIC_CHANNEL, "", "", None)];
      return c.(channels := Some([ChannelRef(PUBLIC_CHANNEL, "", "", None)]));
    }
    var channels := c.channels.value;
    for i := 0 to |channels|
      invariant forall j | 0 <= j < i :: channels[j].name != PUBLIC_CHANNEL
    {
      if channels[i].name == PUBLIC_CHANNEL {
        return c;
      }
    }
    r := c.(channels := Some([ChannelRef(PUBLIC_CHANNEL, "", "", None)] + channels));
  }

  /** Lower case is the word exactly for the word in any case. */
  lemma LowerIsAnyCase(s: string, word: string)
    requires forall i | 0 <= i < |word| :: 'a' <= word[i] <= 'z'
    ensures Lower(s) == word <==> IsAnyCase(s, word)
  {
    if IsAnyCase(s, word) {
      forall i | 0 <= i < |s| ensures Lower(s)[i] == word[i] { }
      assert Lower(s) == word;
    }
    if Lower(s) == word {
      forall i | 0 <= i < |s| ensures s[i] == word[i] || s[i] == UpperChar(word[i]) {
        assert Lower(s)[i] == word[i];
      }
    }
  }

  /** The transport is websockets now exactly if it was that, or ws or wss in any case; TLS is on exactly if it was, or
      for wss; and nothing else has changed. */
  predicate IsNormal(was: Broker, now: Broker)
  {
    && (now.transport == "websockets" <==>
        was.transport == "websockets" || IsAnyCase(was.transport, "ws") || IsAnyCase(was.transport, "wss"))
    && (now.transport == was.transport || now.transport == "websockets")
    && (now.tls <==> was.tls || IsAnyCase(was.transport, "wss"))
    && now == was.(transport := now.transport, tls := now.tls)
  }

  /** There is one such broker, and normal is what it stays. */
  lemma TransportIsNormal(b: Broker)
    ensures IsNormal(b, WithTransport(b)) && WithTransport(WithTransport(b)) == WithTransport(b)
    ensures forall n :: IsNormal(b, n) ==> n == WithTransport(b)
  {
  }

  /** The older ws and wss transports are websockets; wss also means TLS. */
  method NormalizeTransports(were: seq<Broker>) returns (brokers: seq<Broker>)
    ensures |brokers| == |were| && forall i | 0 <= i < |were| :: IsNormal(were[i], brokers[i])
    ensures brokers == WithTransports(were)
  {
    brokers := were;
    for i := 0 to |were|
      invariant |brokers| == |were| && forall j | i <= j < |were| :: brokers[j] == were[j]
      invariant forall j | 0 <= j < i :: brokers[j] == WithTransport(were[j])
    {
      LowerIsAnyCase(were[i].transport, "wss");
      LowerIsAnyCase(were[i].transport, "ws");
      var transport := Lower(brokers[i].transport);
      if transport == "wss" {
        brokers := brokers[i := brokers[i].(transport := "websockets", tls := true)];
      } else if transport == "ws" {
        brokers := brokers[i := brokers[i].(transport := "websockets")];
      }
    }
    AllNormal(were, brokers);
    forall i | 0 <= i < |were| ensures IsNormal(were[i], brokers[i]) {
      TransportIsNormal(were[i]);
    }
  }

  lemma {:induction false} AllNormal(were: seq<Broker>, brokers: seq<Broker>)
    requires |brokers| == |were| && forall j | 0 <= j < |were| :: brokers[j] == WithTransport(were[j])
    ensures brokers == WithTransports(were)
    decreases |were|
  {
    hide WithTransport;
    if were != [] {
      var n := |were| - 1;
      AllNormal(were[..n], brokers[..n]);
      assert brokers == brokers[..n] + [brokers[n]];
    }
  }

  method FillRefs(were: seq<ChannelRef>) returns (channels: seq<ChannelRef>)
    ensures channels == ScopedRefs(were)
  {
    channels := were;
    for j := 0 to |were|
      invariant |channels| == |were|
      invariant forall k | 0 <= k < |were| ::
        channels[k] == if k < j then were[k].(scope := ScopeOrInherit(were[k].scope)) else were[k]
    {
      channels := channels[j := channels[j].(scope := ScopeOrInherit(channels[j].scope))];
    }
  }

  method FillTriggers(were: seq<Trigger>) returns (ts: seq<Trigger>)
    ensures ts == ScopedTriggers(were)
  {
    ts := were;
    for j := 0 to |were|
      invariant |ts| == |were|
      invariant forall k | 0 <= k < |were| :: ts[k] == if k < j then ScopedTrigger(were[k]) else were[k]
    {
      var t := ts[j].(scope := ScopeOrInherit(ts[j].scope));
      if t.channels.Some? {
        var channels := FillRefs(t.channels.value);
        t := t.(channels := Some(channels));
      }
      ts := ts[j := t];
    }
  }

  /** The older topic prefix folded into explicit topics. */
  method FoldTopicPrefixes(were: seq<Broker>) returns (brokers: seq<Broker>)
    ensures brokers == AllWithTopics(were)
  {
    brokers := were;
    for i := 0 to |were|
      invariant |brokers| == |were|
      invariant forall k | 0 <= k < |were| :: brokers[k] == if k < i then WithTopics(were[k]) else were[k]
    {
      var b := brokers[i];
      if b.topicPrefix != "" {
        if b.packetTopic == "" {
          b := b.(packetTopic := b.topicPrefix + "/{iata}/{pubkey}/packets");
        }
        if b.statusTopic == "" {
          b := b.(statusTopic := b.topicPrefix + "/{iata}/{pubkey}/status");
        }
        b := b.(topicPrefix := "");
      }
      brokers := brokers[i := b];
    }
  }

  method TopFloodParents(were: seq<FloodRegion>) returns (rs: seq<FloodRegion>)
    ensures rs == TopFloodRegions(were)
  {
    rs := were;
    for i := 0 to |were|
      invariant |rs| == |were|
      invariant forall k | 0 <= k < |were| :: rs[k] == if k < i then TopFloodRegions(were)[k] else were[k]
    {
      if rs[i].parent == "" {
        rs := rs[i := rs[i].(parent := "*")];
      }
    }
  }

  method FoldDefaultRegion(r: Repeater) returns (folded: Repeater)
    ensures folded == WithScope(r)
  {
    folded := r;
    if r.scope == "" {
      folded := folded.(scope := ScopeForRegionName(r.defaultRegion));
      if HasPrefix(folded.scope, REGION_PREFIX) && !AnyNamed(r.regions, folded.scope) {
        folded := folded.(regions := r.regions + [RegionTree.Region(r.defaultRegion, "*", false)]);
      }
      folded := folded.(defaultRegion := "");
    }
  }

  method TopRegions(were: seq<Region>) returns (rs: seq<Region>)
    ensures rs == AllTopped(were)
  {
    rs := were;
    for i := 0 to |were|
      invariant |rs| == |were|
      invariant forall k | 0 <= k < |were| :: rs[k] == if k < i then Topped(were[k]) else were[k]
    {
      if rs[i].parent == "" && rs[i].name != "*" {
        rs := rs[i := rs[i].(parent := "*")];
      }
    }
  }

  method RespellParents(ghost were: seq<Region>, ghost n: nat, name: string, rs0: seq<Region>) returns (rs: seq<Region>)
    requires n < |were| && |rs0| == |were| && name == were[n].name
    requires forall k | 0 <= k < |were| :: rs0[k] == were[k].(parent := AsWritten(were, n, were[k].parent))
    ensures |rs| == |were| && forall k | 0 <= k < |were| ::
      rs[k] == were[k].(parent := AsWritten(were, n + 1, were[k].parent))
  {
    rs := rs0;
    hide RegionTree.SameRegionName, AsWritten;
    for i := 0 to |rs0|
      invariant |rs| == |rs0|
      invariant forall k | i <= k < |rs| :: rs[k] == rs0[k]
      invariant forall k | 0 <= k < i :: rs[k] == were[k].(parent := AsWritten(were, n + 1, were[k].parent))
    {
      RespelledParent(were, n, were[i].parent);
      assert rs[i] == were[i].(parent := AsWritten(were, n, were[i].parent));
      if rs[i].parent != "*" && rs[i].parent != "" && RegionTree.SameRegionName(name, rs[i].parent) {
        rs := rs[i := rs[i].(parent := name)];
      }
    }
  }

  /** One more region: a parent takes its spelling when it is the same region, "*" being only ever itself. */
  lemma {:induction false} RespelledParent(rs: seq<Region>, n: nat, parent: string)
    requires n < |rs|
    ensures var before, name := AsWritten(rs, n, parent), rs[n].name;
      AsWritten(rs, n + 1, parent) ==
      if before != "*" && before != "" && RegionTree.SameRegionName(name, before) then name else before
  {
    hide RegionTree.SameRegionName;
    WrittenOnce(rs, n, parent);
    TopIsOnlyItself(rs[n].name);
  }

  lemma {:induction false} WrittenOnce(rs: seq<Region>, n: nat, name: string)
    requires n < |rs|
    ensures var before := AsWritten(rs, n, name);
      AsWritten(rs, n + 1, name) ==
      if before != "" && RegionTree.SameRegionName(rs[n].name, before) then rs[n].name else before
  {
  }

  lemma {:induction false} TopIsOnlyItself(name: string)
    ensures RegionTree.SameRegionName(name, "*") ==> name == "*"
  {
  }

  /** A home or parent that is a listed region but for the "#" is written as that region is. */
  method RespellRegions(were: seq<Region>, home0: string) returns (home: string, rs: seq<Region>)
    ensures home == AsWritten(were, |were|, home0) && rs == AllAsWritten(were)
  {
    home, rs := home0, were;
    for n := 0 to |were|
      invariant |rs| == |were| && home == AsWritten(were, n, home0)
      invariant forall k | 0 <= k < |were| :: rs[k] == were[k].(parent := AsWritten(were, n, were[k].parent))
    {
      hide RegionTree.SameRegionName;
      WrittenOnce(were, n, home0);
      var name := rs[n].name;
      if home != "" && RegionTree.SameRegionName(name, home) {
        home := name;
      }
      rs := RespellParents(were, n, name, rs);
    }
  }

  lemma HoistedOneMore(mqtt: Option<Mqtt>, cs: seq<Companion>, i: nat)
    requires i < |cs|
    ensures var before := HoistedMqtt(mqtt, cs[..i]);
      HoistedMqtt(mqtt, cs[..i + 1]) ==
      if before.None? && cs[i].mqtt.Some? then Some(cs[i].mqtt.value.(node := Some(cs[i].name))) else before
  {
    assert cs[..i + 1][..i] == cs[..i];
  }

  class Config {
    var settings: Settings
    var companions: seq<Companion>
    var mqtt: Option<Mqtt>
    var repeater: Option<Repeater>
    var floodRegions: seq<FloodRegion>
    var legacy: Legacy

    ghost function Now(): Data
      reads this
    {
      Data(settings, companions, mqtt, repeater, floodRegions, legacy)
    }

    method AttachObserver(name: string, o: Observer)
      modifies `companions
      ensures companions == Attached(old(companions), name, o)
    {
      var at := 0;
      while at < |companions| && companions[at].name != name
        invariant at <= |companions| && Named(companions, name, 0) == Named(companions, name, at)
      {
        at := at + 1;
      }
      if at == |companions| {
        companions := companions + [NEW_COMPANION.(name := name)];
      }
      var c := companions[at];
      if c.privateKey == "" && c.keyFile == "" && o.keyFile.Some? {
        c := c.(keyFile := o.keyFile.value);
      }
      if o.advert.Some? {
        var a := o.advert.value;
        if c.latitude.None? {
          c := c.(latitude := a.lat);
        }
        if c.longitude.None? {
          c := c.(longitude := a.lon);
        }
        if c.advertInterval.None? && a.enabled && a.interval.Some? {
          c := c.(advertInterval := a.interval);
        }
      }
      assert c == Fed(companions[at], o);
      companions := companions[at := c];
    }

    method AddBots()
      modifies `companions
      ensures companions == old(companions) + FromBots(legacy.bots)
    {
      ghost var were := companions;
      assert were + FromBots([]) == were;
      var bots := legacy.bots;
      for i := 0 to |bots|
        invariant companions == were + FromBots(bots[..i])
      {
        assert bots[..i + 1][..i] == bots[..i];
        companions := companions + [FromBot(bots[i])];
      }
      assert bots[..|bots|] == bots;
    }

    method MigrateLegacyFormat()
      modifies this
      ensures Now() == Migrated(old(Now()))
    {
      hide Attached, WithTransports, FromBots;
      if !Given(settings.connectionType) && Given(legacy.nodeType) {
        settings := settings.(connectionType := legacy.nodeType);
      }
      AddBots();
      if mqtt.None? && legacy.observers != [] {
        var o := legacy.observers[0];
        var brokers := NormalizeTransports(o.brokers);
        mqtt := Some(Mqtt(o.name, o.iataCode, o.statusInterval, o.owner, o.email, brokers));
        if Given(o.name) {
          AttachObserver(o.name.value, o);
        }
      }
      legacy := NOTHING_LEGACY;
    }

    method FillSettings()
      modifies `settings
      ensures settings == Filled(old(settings))
    {
      if !Given(settings.connectionType) {
        settings := settings.(connectionType := Some("kiss"));
      }
      if settings.setupComplete.None? {
        settings := settings.(setupComplete := Some(false));
      }
      if settings.connection.None? {
        settings := settings.(connection := Some("serial:///dev/ttyACM0"));
      }
      if settings.baudRate.None? {
        settings := settings.(baudRate := Some(115200));
        if OpenhopSerial(settings.connection.value) {
          settings := settings.(baudRate := Some(OPENHOP_BAUD_RATE));
        }
      }
      settings := settings.(freq := Or(settings.freq, 917.375), bw := Or(settings.bw, 62.5), sf := Or(settings.sf, 7),
                            cr := Or(settings.cr, 8), tx := Or(settings.tx, 22));
      if settings.scope == "" {
        settings := settings.(scope := "everywhere");
      }
    }

    /** Completes each companion's channels and takes its mqtt block to the top; the first wins. */
    method CompleteCompanions()
      modifies `companions, `mqtt
      ensures |companions| == |old(companions)|
      ensures forall i | 0 <= i < |companions| :: companions[i] == Owned(old(companions)[i]).(mqtt := None)
      ensures mqtt == HoistedMqtt(old(mqtt), old(companions))
    {
      var were := companions;
      for i := 0 to |were|
        invariant |companions| == |were|
        invariant forall j | 0 <= j < |were| ::
          companions[j] == if j < i then Owned(were[j]).(mqtt := None) else were[j]
        invariant mqtt == HoistedMqtt(old(mqtt), were[..i])
      {
        HoistedOneMore(old(mqtt), were, i);
        hide HoistedMqtt, WithTriggerChannels, WithPublic;
        var c := EnsureTriggerChannels(companions[i]);
        c := EnsurePublicChannel(c);
        if c.mqtt.Some? {
          if mqtt.None? {
            mqtt := Some(c.mqtt.value.(node := Some(c.name)));
          }
          c := c.(mqtt := None);
        }
        companions := companions[i := c];
      }
      assert were[..|were|] == were;
    }

    method FillScopes()
      modifies `companions
      ensures |companions| == |old(companions)|
      ensures forall i | 0 <= i < |companions| :: companions[i] == Scoped(old(companions)[i])
    {
      var were := companions;
      for i := 0 to |were|
        invariant |companions| == |were|
        invariant forall j | 0 <= j < |were| :: companions[j] == if j < i then Scoped(were[j]) else were[j]
      {
        var c := companions[i];
        c := c.(scope := ScopeOrInherit(c.scope));
        if c.queueSize == 0 {
          c := c.(queueSize := APP_QUEUE_DEFAULT);
        }
        if c.channels.Some? {
          var channels := FillRefs(c.channels.value);
          c := c.(channels := Some(channels));
        }
        if c.triggers.Some? {
          var triggers := FillTriggers(c.triggers.value);
          c := c.(triggers := Some(triggers));
        }
        companions := companions[i := c];
      }
    }

    /** The repeater's scope, its regions' parents, and home and parents as the regions themselves are written. */
    method SettleRepeater()
      modifies `repeater
      ensures repeater == if old(repeater).Some? then Some(Settled(old(repeater).value)) else None
    {
      if repeater.None? {
        return;
      }
      var r := FoldDefaultRegion(repeater.value);
      var rs := TopRegions(r.regions);
      var home;
      home, rs := RespellRegions(rs, r.home);
      repeater := Some(r.(home := home, regions := rs));
    }

    method ApplyDefaults()
      modifies this
      ensures Now() == Defaulted(old(Now()))
    {
      hide Migrated, Filled, Settled, HoistedMqtt, Owned, Scoped;
      MigrateLegacyFormat();
      ghost var d := Now();
      FillSettings();
      CompleteCompanions();
      if mqtt.Some? {
        var brokers := FoldTopicPrefixes(mqtt.value.brokers);
        mqtt := Some(mqtt.value.(brokers := brokers));
      }
      FillScopes();
      assert companions == AllWhole(d.companions);
      SettleRepeater();
      floodRegions := TopFloodParents(floodRegions);
    }
  }
}
