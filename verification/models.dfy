/** The records of api/models.py and the field constraints pydantic enforces on them
    when a record is built or parsed. Ids are plain strings: the uuid4 default is a
    random value and is taken as a parameter. */
module Models {
  import opened Common

  datatype ChannelType = Master | Red | Green | Blue | WhiteCool | WhiteWarm | Range | Discrete

  datatype OutputCorrection = Linear | Quadratic | Cubic | Quadruple

  datatype Color = Color(red: int, green: int, blue: int)

  datatype Node = Node(
    id: string,
    ipAddress: string,
    port: int,
    universes: seq<int>,
    maxFps: int,
    refreshEvery: int,
    fadeSupport: bool,
    outputCorrection: OutputCorrection)

  datatype DiscreteOption = DiscreteOption(name: string, value: int, disabledChannels: seq<int>)

  datatype ArtnetChannel = ArtnetChannel(
    name: string,
    kind: ChannelType,
    minValue: int,
    maxValue: int,
    options: seq<DiscreteOption>)

  /** One `(universe, channel)` pair of a fixture's `addresses`. */
  datatype Address = Address(universe: int, start: int)

  datatype Fixture = Fixture(id: string, name: string, addresses: seq<Address>, channels: seq<ArtnetChannel>)

  datatype Preset = Preset(
    id: string,
    name: string,
    effectName: string,
    buttonColor: Color,
    fixtureId: string,
    fade: int,
    values: seq<int>)

  datatype Transient = Transient(fixtureId: string, fade: int, values: seq<int>)

  /** Field defaults. */
  const DefaultPort: int := 6454
  const DefaultMaxFps: int := 50
  const DefaultRefreshEvery: int := 1
  const DefaultMinValue: int := 0
  const DefaultMaxValue: int := 255
  const DefaultFade: int := 0

  /** The exclusive upper bound of a channel's `min_value` and `max_value` (`lt=256`). */
  const ByteLimit: int := 256

  /** A violated field constraint; channel errors carry the channel's position. */
  datatype FieldError =
    | PortNotPositive
    | MaxFpsNotPositive
    | RefreshEveryNotPositive
    | MinValueOutOfRange(channel: nat)
    | MaxValueOutOfRange(channel: nat)
    | FadeNegative

  ghost predicate IsByte(v: int) {
    0 <= v < ByteLimit
  }

  ghost predicate ValidNode(n: Node) {
    n.port > 0 && n.maxFps > 0 && n.refreshEvery > 0
  }

  ghost predicate ValidChannel(c: ArtnetChannel) {
    IsByte(c.minValue) && IsByte(c.maxValue)
  }

  ghost predicate ValidFixture(f: Fixture) {
    forall i :: 0 <= i < |f.channels| ==> ValidChannel(f.channels[i])
  }

  /** Parsing a node: every violated constraint is reported, in field order. */
  function ValidateNode(n: Node): (r: Result<Node, seq<FieldError>>)
    ensures r.Success? <==> ValidNode(n)
    ensures r.Success? ==> r.value == n
    ensures r.Failure? ==> (PortNotPositive in r.error <==> n.port <= 0)
    ensures r.Failure? ==> (MaxFpsNotPositive in r.error <==> n.maxFps <= 0)
    ensures r.Failure? ==> (RefreshEveryNotPositive in r.error <==> n.refreshEvery <= 0)
  {
    var errors :=
      (if n.port > 0 then [] else [PortNotPositive])
      + (if n.maxFps > 0 then [] else [MaxFpsNotPositive])
      + (if n.refreshEvery > 0 then [] else [RefreshEveryNotPositive]);
    if errors == [] then Success(n) else Failure(errors)
  }

  /** The constraint violations of the channel at position `at`. */
  function ChannelErrors(c: ArtnetChannel, at: nat): (r: seq<FieldError>)
    ensures r == [] <==> ValidChannel(c)
    ensures forall e :: e in r ==> e == MinValueOutOfRange(at) || e == MaxValueOutOfRange(at)
    ensures MinValueOutOfRange(at) in r <==> !IsByte(c.minValue)
    ensures MaxValueOutOfRange(at) in r <==> !IsByte(c.maxValue)
  {
    (if 0 <= c.minValue < ByteLimit then [] else [MinValueOutOfRange(at)])
    + (if 0 <= c.maxValue < ByteLimit then [] else [MaxValueOutOfRange(at)])
  }

  /** The constraint violations of `channels`, numbering them from `from`. */
  function ChannelListErrors(channels: seq<ArtnetChannel>, from: nat): (r: seq<FieldError>)
    ensures r == [] <==> forall i :: 0 <= i < |channels| ==> ValidChannel(channels[i])
    ensures forall i :: 0 <= i < |channels| && !IsByte(channels[i].minValue) ==>
      MinValueOutOfRange(from + i) in r
    ensures forall i :: 0 <= i < |channels| && !IsByte(channels[i].maxValue) ==>
      MaxValueOutOfRange(from + i) in r
    ensures forall e :: e in r ==> e.MinValueOutOfRange? || e.MaxValueOutOfRange?
    ensures forall e :: e in r ==> from <= e.channel < from + |channels|
    decreases |channels|
  {
    if |channels| == 0 then []
    else ChannelErrors(channels[0], from) + ChannelListErrors(channels[1..], from + 1)
  }

  /** Parsing a fixture validates every nested channel. */
  function ValidateFixture(f: Fixture): (r: Result<Fixture, seq<FieldError>>)
    ensures r.Success? <==> ValidFixture(f)
    ensures r.Success? ==> r.value == f
    ensures r.Failure? ==> forall e :: e in r.error ==>
      (e.MinValueOutOfRange? || e.MaxValueOutOfRange?) && e.channel < |f.channels|
    ensures forall i :: 0 <= i < |f.channels| && !IsByte(f.channels[i].minValue) ==>
      r.Failure? && MinValueOutOfRange(i) in r.error
    ensures forall i :: 0 <= i < |f.channels| && !IsByte(f.channels[i].maxValue) ==>
      r.Failure? && MaxValueOutOfRange(i) in r.error
  {
    var errors := ChannelListErrors(f.channels, 0);
    if errors == [] then Success(f) else Failure(errors)
  }

  function ValidatePreset(p: Preset): (r: Result<Preset, seq<FieldError>>)
    ensures r.Success? <==> p.fade >= 0
    ensures r.Success? ==> r.value == p
    ensures r.Failure? ==> r.error == [FadeNegative]
  {
    if p.fade >= 0 then Success(p) else Failure([FadeNegative])
  }

  function ValidateTransient(t: Transient): (r: Result<Transient, seq<FieldError>>)
    ensures r.Success? <==> t.fade >= 0
    ensures r.Success? ==> r.value == t
    ensures r.Failure? ==> r.error == [FadeNegative]
  {
    if t.fade >= 0 then Success(t) else Failure([FadeNegative])
  }

  /** A node built from its required fields only, with every other field defaulted. */
  function NewNode(id: string, ipAddress: string): (n: Node)
    ensures ValidateNode(n).Success?
    ensures n.id == id && n.ipAddress == ipAddress && n.universes == []
  {
    Node(id, ipAddress, DefaultPort, [], DefaultMaxFps, DefaultRefreshEvery, true, Quadratic)
  }

  /** A channel built from its required fields only: the full byte range. */
  function NewChannel(name: string, kind: ChannelType): (c: ArtnetChannel)
    ensures ValidChannel(c)
    ensures c.minValue == 0 && c.maxValue == ByteLimit - 1
  {
    ArtnetChannel(name, kind, DefaultMinValue, DefaultMaxValue, [])
  }

  /** A valid fixture lists only valid channels; the lemma reads one channel back. */
  lemma ValidFixtureChannels(f: Fixture, i: nat)
    requires ValidateFixture(f).Success?
    requires i < |f.channels|
    ensures 0 <= f.channels[i].minValue <= 255 && 0 <= f.channels[i].maxValue <= 255
  {
  }
}
