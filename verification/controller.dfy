/** The Art-Net send planner of api/controller.py with its I/O removed: which fixture
    and which nodes a send addresses, how the value list is fitted to the fixture, and
    which of the immediate and fade paths runs. The `ArtNetNode`, universe and channel
    objects, `asyncio` and logging are outside the model. */
module Controller {
  import opened Common
  import opened Models
  import Collection

  function FixtureId(f: Fixture): string { f.id }

  /** A list of `count` zeros. */
  function Zeros(count: nat): (r: seq<int>)
    ensures |r| == count
    ensures forall i :: 0 <= i < count ==> r[i] == 0
  {
    seq(count, _ => 0)
  }

  /** The values actually sent, and the caller's list after the call: padding extends
      the caller's list in place, while truncation rebinds a local copy. */
  datatype Normalised = Normalised(sent: seq<int>, callerList: seq<int>)

  /** Fits `values` to the fixture's `numChannels` channels. */
  function NormaliseValues(values: seq<int>, numChannels: nat): (r: Normalised)
    ensures |r.sent| == numChannels
    ensures forall i :: 0 <= i < numChannels && i < |values| ==> r.sent[i] == values[i]
    ensures forall i :: |values| <= i < numChannels ==> r.sent[i] == 0
    ensures |values| < numChannels ==> r.callerList == r.sent
    ensures |values| >= numChannels ==> r.callerList == values
  {
    if |values| < numChannels then
      var padded := values + Zeros(numChannels - |values|);
      Normalised(padded, padded)
    else if |values| > numChannels then
      Normalised(values[..numChannels], values)
    else
      Normalised(values, values)
  }

  /** A list already of the right length is sent as it is, so fitting twice is fitting once. */
  lemma NormaliseIdempotent(values: seq<int>, numChannels: nat)
    ensures NormaliseValues(values, numChannels).sent == values <==> |values| == numChannels
    ensures NormaliseValues(NormaliseValues(values, numChannels).sent, numChannels).sent
      == NormaliseValues(values, numChannels).sent
  {
  }

  /** The two ways the values reach the channels. */
  datatype Path = SetValues | AddFade(duration: int)

  function ChoosePath(fade: int): (p: Path)
    ensures p.SetValues? <==> fade <= 0
    ensures p.AddFade? ==> p.duration == fade && p.duration > 0
  {
    if fade <= 0 then SetValues else AddFade(fade)
  }

  /** A channel `add_channel(start, width)` would have created on a universe. */
  datatype ChannelHandle = ChannelHandle(universe: int, start: int, width: nat)

  /** The exceptions the send path can meet. */
  datatype PyError = IndexError | TypeError | RuntimeError

  /** How the send coroutine ends: normally, after logging a caught exception, or by
      raising out of the call. */
  datatype Termination = Completed | Logged(caught: PyError) | Raised(error: PyError)

  /** What `_send_artnet_message` does: the values it would write, the caller's list
      afterwards, the path taken, the channels written, and how it ends. */
  datatype SendReport = SendReport(
    sent: seq<int>,
    callerValues: seq<int>,
    path: Path,
    channels: seq<ChannelHandle>,
    termination: Termination)

  /** `_send_artnet_message` as written. The first statement rebinds `nodes` to a new
      empty list, so the per-node loop never runs and no channel is created, whatever
      nodes the caller passed. On the fade path `await channels[-1]` then indexes an
      empty list. The outer `except` catches that IndexError, but its handler calls
      `logger.error` with keyword arguments only, and `Logger.error` requires a
      positional message, so the handler itself raises TypeError out of the call. The
      values were fitted before that, so a padded caller's list stays padded. */
  function SendArtnet(nodes: seq<Node>, fixture: Fixture, universes: set<int>, fade: int, values: seq<int>): (r: SendReport)
    ensures r.channels == []
    ensures |r.sent| == |fixture.channels|
    ensures r.sent == NormaliseValues(values, |fixture.channels|).sent
    ensures r.callerValues == NormaliseValues(values, |fixture.channels|).callerList
    ensures r.path.SetValues? <==> fade <= 0
    ensures r.termination.Completed? <==> fade <= 0
    ensures fade > 0 ==> r.termination == Raised(TypeError)
  {
    var fitted := NormaliseValues(values, |fixture.channels|);
    // The loop over the rebound, empty `nodes` list adds no channel.
    var channels: seq<ChannelHandle> := [];
    var path := ChoosePath(fade);
    // `await channels[-1]` raises IndexError on an empty list; the handler's own
    // `logger.error(message=..., level=...)` call then raises TypeError.
    var termination := if path.AddFade? && |channels| == 0 then Raised(TypeError) else Completed;
    SendReport(fitted.sent, fitted.callerList, path, channels, termination)
  }

  /** `_send_artnet_message` with the handler as evidently intended, logging the caught
      exception with a positional message: the send then never raises, the fade path
      ends with the IndexError logged, and everything else is as written. */
  function SendArtnetIntended(nodes: seq<Node>, fixture: Fixture, universes: set<int>, fade: int, values: seq<int>): (r: SendReport)
    ensures !r.termination.Raised?
    ensures r.termination.Logged? <==> fade > 0
    ensures r.termination.Logged? ==> r.termination.caught == IndexError
    ensures var w := SendArtnet(nodes, fixture, universes, fade, values);
      r.sent == w.sent && r.callerValues == w.callerValues && r.path == w.path && r.channels == w.channels
  {
    var fitted := NormaliseValues(values, |fixture.channels|);
    var channels: seq<ChannelHandle> := [];
    var path := ChoosePath(fade);
    var termination := if path.AddFade? && |channels| == 0 then Logged(IndexError) else Completed;
    SendReport(fitted.sent, fitted.callerList, path, channels, termination)
  }

  /** A fade send with too few values pads the caller's list and then raises, where the
      intended handler would have logged the IndexError and returned. */
  lemma FadeSendRaises(fixture: Fixture, values: seq<int>)
    requires |values| < |fixture.channels|
    ensures SendArtnet([], fixture, {}, 1, values).termination == Raised(TypeError)
    ensures |SendArtnet([], fixture, {}, 1, values).callerValues| == |fixture.channels|
    ensures SendArtnetIntended([], fixture, {}, 1, values).termination == Logged(IndexError)
  {
  }

  /** Whatever nodes are passed in, the send produces the same report. */
  lemma SendArtnetIgnoresNodes(nodes: seq<Node>, nodes': seq<Node>, fixture: Fixture, universes: set<int>, fade: int, values: seq<int>)
    ensures SendArtnet(nodes, fixture, universes, fade, values) == SendArtnet(nodes', fixture, universes, fade, values)
  {
  }

  /** The set of universes of a fixture's addresses. */
  function Universes(addresses: seq<Address>): (r: set<int>)
    ensures forall u :: u in r <==> exists i :: 0 <= i < |addresses| && addresses[i].universe == u
  {
    if |addresses| == 0 then {}
    else {addresses[0].universe} + Universes(addresses[1..])
  }

  /** `any(set(node.universes).intersection(universes))`: the node shares a universe with
      the fixture that is truthy, that is, non-zero. */
  predicate SharesUniverse(n: Node, universes: set<int>) {
    exists u :: u in n.universes && u in universes && u != 0
  }

  /** The nodes that share a non-zero universe, in their original order. */
  function SelectNodes(nodes: seq<Node>, universes: set<int>): (r: seq<Node>)
    ensures |r| <= |nodes|
    ensures forall n :: n in r <==> n in nodes && SharesUniverse(n, universes)
  {
    if |nodes| == 0 then []
    else if SharesUniverse(nodes[0], universes) then [nodes[0]] + SelectNodes(nodes[1..], universes)
    else SelectNodes(nodes[1..], universes)
  }

  /** Selection distributes over concatenation, so it keeps the nodes' relative order. */
  lemma {:induction false} SelectNodesConcat(a: seq<Node>, b: seq<Node>, universes: set<int>)
    ensures SelectNodes(a + b, universes) == SelectNodes(a, universes) + SelectNodes(b, universes)
  {
    if |a| == 0 {
      assert a + b == b;
    } else {
      assert (a + b)[1..] == a[1..] + b;
      SelectNodesConcat(a[1..], b, universes);
    }
  }

  /** A node whose only universe in common with the fixture is 0 is not selected. */
  lemma UniverseZeroIgnored(n: Node, universes: set<int>)
    requires forall u :: u in n.universes && u in universes ==> u == 0
    ensures SelectNodes([n], universes) == []
  {
  }

  /** The outcome of `send_message`: the two early returns; `asyncio.run` refusing to
      start because an event loop is already running; the send coroutine raising; or
      the send completing. */
  datatype SendOutcome =
    | UnknownFixture
    | NoMatchingNodes(fixture: Fixture, universes: set<int>)
    | LoopAlreadyRunning(fixture: Fixture, universes: set<int>, selected: seq<Node>)
    | SendRaised(fixture: Fixture, universes: set<int>, selected: seq<Node>, report: SendReport)
    | Dispatched(fixture: Fixture, universes: set<int>, selected: seq<Node>, report: SendReport)
  {
    /** The send got past both early returns. */
    predicate NodesSelected() {
      LoopAlreadyRunning? || SendRaised? || Dispatched?
    }
  }

  /** `send_message(fixture_id, fade, values)` over the node and fixture stores.
      `calledFromEventLoop` says whether the caller runs inside an event loop, as the
      `async def` route handlers do; `asyncio.run` then raises RuntimeError before the
      send coroutine starts. */
  function SendMessage(nodes: seq<Node>, fixtures: seq<Fixture>, fixtureId: string, fade: int, values: seq<int>, calledFromEventLoop: bool): (r: SendOutcome)
    ensures r.UnknownFixture? <==> !Collection.Present(fixtures, FixtureId, fixtureId)
    ensures forall j :: Collection.FirstMatchAt(fixtures, FixtureId, fixtureId, j) ==>
      !r.UnknownFixture? && r.fixture == fixtures[j]
    ensures !r.UnknownFixture? ==> forall u :: u in r.universes <==>
      exists i :: 0 <= i < |r.fixture.addresses| && r.fixture.addresses[i].universe == u
    ensures r.NoMatchingNodes? ==> forall n :: n in nodes ==> !SharesUniverse(n, r.universes)
    ensures r.NodesSelected() ==> |r.selected| > 0
    ensures r.NodesSelected() ==> forall n :: n in r.selected <==> n in nodes && SharesUniverse(n, r.universes)
    ensures r.NodesSelected() ==> (r.LoopAlreadyRunning? <==> calledFromEventLoop)
    ensures r.SendRaised? ==> fade > 0 && r.report.termination == Raised(TypeError)
    ensures r.SendRaised? ==> r.report.callerValues == NormaliseValues(values, |r.fixture.channels|).callerList
    ensures r.Dispatched? ==> fade <= 0 && r.report.termination == Completed
    ensures r.Dispatched? ==> |r.report.sent| == |r.fixture.channels| && r.report.channels == []
  {
    match Collection.Find(fixtures, FixtureId, fixtureId)
    case None => UnknownFixture
    case Some(fixture) =>
      var universes := Universes(fixture.addresses);
      var selected := SelectNodes(nodes, universes);
      if |selected| == 0 then NoMatchingNodes(fixture, universes)
      else if calledFromEventLoop then LoopAlreadyRunning(fixture, universes, selected)
      else
        var report := SendArtnet(selected, fixture, universes, fade, values);
        if report.termination.Raised? then SendRaised(fixture, universes, selected, report)
        else Dispatched(fixture, universes, selected, report)
  }

  /** For a known fixture, outside an event loop, the send coroutine runs exactly when
      some node shares a non-zero universe with the fixture; it then raises exactly when
      `fade > 0`, and what it does never depends on the nodes. */
  lemma {:induction false} DispatchIff(nodes: seq<Node>, fixtures: seq<Fixture>, fixtureId: string, fade: int, values: seq<int>, f: Fixture)
    requires Collection.Find(fixtures, FixtureId, fixtureId) == Some(f)
    ensures var r := SendMessage(nodes, fixtures, fixtureId, fade, values, false);
      r.SendRaised? || r.Dispatched? <==> exists n :: n in nodes && SharesUniverse(n, Universes(f.addresses))
    ensures var r := SendMessage(nodes, fixtures, fixtureId, fade, values, false);
      r.SendRaised? || r.Dispatched? ==>
        (r.SendRaised? <==> fade > 0) && r.report == SendArtnet([], f, Universes(f.addresses), fade, values)
  {
    var U := Universes(f.addresses);
    var selected := SelectNodes(nodes, U);
    if exists n :: n in nodes && SharesUniverse(n, U) {
      var n :| n in nodes && SharesUniverse(n, U);
      assert n in selected;
    }
    if |selected| > 0 {
      assert selected[0] in selected;
    }
    SendArtnetIgnoresNodes(selected, [], f, U, fade, values);
  }

  /** Called from inside an event loop, as by the route handlers, `send_message` never
      runs the send coroutine, so it neither pads the values nor writes anything. */
  lemma RunningLoopNeverSends(nodes: seq<Node>, fixtures: seq<Fixture>, fixtureId: string, fade: int, values: seq<int>)
    ensures var r := SendMessage(nodes, fixtures, fixtureId, fade, values, true);
      !r.SendRaised? && !r.Dispatched?
  {
  }
}
