/**
 * The BLE client side of the bridge: the BLE-MIDI identifiers, the characteristic lookup
 * over the discovered services, the target-name test and the discovery poll loop.
 * The btleplug transport is abstracted: a peripheral is an id and the reply to its
 * properties query, a service is a UUID and its characteristics, and each transport call
 * that can fail is given as an outcome.
 */
module Ble {

  import opened Common
  import opened Text

  /** A 128-bit UUID. */
  type Uuid = x: nat | x < 0x1_0000_0000_0000_0000_0000_0000_0000_0000

  /** The BLE-MIDI characteristic that carries MIDI event notifications. */
  const MidiCharacteristicUuid: Uuid := 0x7772E5DB_3868_4112_A1A9_F2669D106BF3

  /** The BLE-MIDI service. */
  const MidiServiceUuid: Uuid := 0x03B80E5A_EDE8_4B33_A751_6CE34EC4C700

  /** The five hyphen-separated fields of a UUID's text form (8-4-4-4-12 hexadecimal digits). */
  datatype UuidFields = UuidFields(timeLow: nat, timeMid: nat, timeHigh: nat, clockSeq: nat, node: nat)

  function Fields(u: Uuid): UuidFields
  {
    var belowTimeLow := u % 0x1_0000_0000_0000_0000_0000_0000;
    var belowTimeMid := belowTimeLow % 0x1_0000_0000_0000_0000_0000;
    var belowTimeHigh := belowTimeMid % 0x1_0000_0000_0000_0000;
    UuidFields(u / 0x1_0000_0000_0000_0000_0000_0000, belowTimeLow / 0x1_0000_0000_0000_0000_0000,
               belowTimeMid / 0x1_0000_0000_0000_0000, belowTimeHigh / 0x1_0000_0000_0000,
               belowTimeHigh % 0x1_0000_0000_0000)
  }

  predicate FieldsInRange(f: UuidFields)
  {
    f.timeLow < 0x1_0000_0000 && f.timeMid < 0x1_0000 && f.timeHigh < 0x1_0000 && f.clockSeq < 0x1_0000 &&
    f.node < 0x1_0000_0000_0000
  }

  /** The UUID whose text form has the given fields, as `Uuid::from_u128` of the concatenated digits. */
  function FromFields(f: UuidFields): Uuid
    requires FieldsInRange(f)
  {
    f.timeLow * 0x1_0000_0000_0000_0000_0000_0000 + f.timeMid * 0x1_0000_0000_0000_0000_0000 +
    f.timeHigh * 0x1_0000_0000_0000_0000 + f.clockSeq * 0x1_0000_0000_0000 + f.node
  }

  /** Every UUID splits into in-range fields that rebuild it. */
  lemma FieldsRoundTrip(u: Uuid)
    ensures FieldsInRange(Fields(u)) && FromFields(Fields(u)) == u
  {
  }

  /** The identifiers are 03B80E5A-EDE8-4B33-A751-6CE34EC4C700 and 7772E5DB-3868-4112-A1A9-F2669D106BF3. */
  lemma MidiUuidFields()
    ensures Fields(MidiServiceUuid) == UuidFields(0x03B80E5A, 0xEDE8, 0x4B33, 0xA751, 0x6CE34EC4C700)
    ensures Fields(MidiCharacteristicUuid) == UuidFields(0x7772E5DB, 0x3868, 0x4112, 0xA1A9, 0xF2669D106BF3)
  {
  }

  /** A GATT characteristic: its UUID and the UUID of the service it belongs to. */
  datatype Characteristic = Characteristic(uuid: Uuid, serviceUuid: Uuid)

  /** A discovered GATT service with its characteristics in discovery order. */
  datatype Service = Service(uuid: Uuid, characteristics: seq<Characteristic>)

  datatype BleAction =
    | StartScan
    | ListPeripherals
    | QueryProperties(id: nat)
    | Sleep
    | StopScan
    | Connect(id: nat)
    | DiscoverServices

  datatype BleError =
    | NoAdapter
    | DeviceNotFound(timeoutSecs: nat)
    | CharacteristicNotFound(uuid: Uuid)
    | TransportFailed(during: BleAction)

  /** Characteristic `j` of service `i` comes before characteristic `j2` of service `i2` in the search order. */
  predicate SearchedBefore(i: int, j: int, i2: int, j2: int)
  {
    i < i2 || (i == i2 && j < j2)
  }

  /** `services[i].characteristics[j]` exists. */
  predicate IsSlot(services: seq<Service>, i: int, j: int)
  {
    0 <= i < |services| && 0 <= j < |services[i].characteristics|
  }

  /**
   * The first characteristic with UUID `uuid`, searching the services in order and the
   * characteristics of each service in order.
   */
  method GetCharacteristic(services: seq<Service>, uuid: Uuid) returns (r: Result<Characteristic, BleError>)
    ensures r.Ok? ==> r.value.uuid == uuid
    ensures r.Ok? ==>
      exists i, j :: IsSlot(services, i, j) && services[i].characteristics[j] == r.value &&
        forall i2, j2 :: IsSlot(services, i2, j2) && SearchedBefore(i2, j2, i, j) ==>
          services[i2].characteristics[j2].uuid != uuid
    ensures r.Err? <==> forall i, j :: IsSlot(services, i, j) ==> services[i].characteristics[j].uuid != uuid
    ensures r.Err? ==> r.error == CharacteristicNotFound(uuid)
  {
    for i := 0 to |services|
      invariant forall i2, j2 :: IsSlot(services, i2, j2) && i2 < i ==> services[i2].characteristics[j2].uuid != uuid
    {
      var characteristics := services[i].characteristics;
      for j := 0 to |characteristics|
        invariant forall j2 :: 0 <= j2 < j ==> characteristics[j2].uuid != uuid
      {
        if characteristics[j].uuid == uuid {
          assert IsSlot(services, i, j);
          return Ok(characteristics[j]);
        }
      }
    }
    return Err(CharacteristicNotFound(uuid));
  }

  /** The names the bridge looks for in advertised local names. */
  predicate IsTargetName(name: string)
  {
    Contains(name, "LPK25") || Contains(name, "AKAI")
  }

  /** A target name contains "LPK25" or "AKAI" somewhere, case included. */
  lemma TargetNameIffOccurs(name: string)
    ensures IsTargetName(name) <==> (exists i :: OccursAt(name, "LPK25", i)) || (exists i :: OccursAt(name, "AKAI", i))
  {
    ContainsIffOccurs(name, "LPK25");
    ContainsIffOccurs(name, "AKAI");
  }

  /** Text around a target name keeps it a target name: the test looks for the marks anywhere in the name. */
  lemma TargetNameInLongerName(before: string, name: string, after: string)
    requires IsTargetName(name)
    ensures IsTargetName(before + name + after)
  {
    TargetNameIffOccurs(name);
    TargetNameIffOccurs(before + name + after);
    if exists i :: OccursAt(name, "LPK25", i) {
      var i :| OccursAt(name, "LPK25", i);
      MarkInLongerName(before, name, after, "LPK25", i);
    } else {
      var i :| OccursAt(name, "AKAI", i);
      MarkInLongerName(before, name, after, "AKAI", i);
    }
  }

  lemma MarkInLongerName(before: string, name: string, after: string, mark: string, i: int)
    requires OccursAt(name, mark, i)
    ensures OccursAt(before + name + after, mark, |before| + i)
  {
    var longer := before + name + after;
    assert longer[|before| + i..|before| + i + |mark|] == name[i..i + |mark|];
  }

  /** The name of the controller the bridge is written for is a target name. */
  lemma TargetNameExample()
    ensures IsTargetName("AKAI LPK25 Wireless")
  {
    assert OccursAt("AKAI LPK25 Wireless", "AKAI", 0);
    TargetNameIffOccurs("AKAI LPK25 Wireless");
  }

  /** The reply to a peripheral's properties query. */
  datatype PropertiesReply = PropertiesFailed | NoProperties | Properties(localName: Option<string>)

  /** A peripheral visible to the adapter in one poll round. */
  datatype Peripheral = Peripheral(id: nat, properties: PropertiesReply)

  /** A peripheral is a target when its properties carry a local name that is a target name. */
  predicate IsTarget(p: Peripheral)
  {
    p.properties.Properties? && p.properties.localName.Some? && IsTargetName(p.properties.localName.value)
  }

  /** The result of listing the visible peripherals in one poll round. */
  datatype Poll = PollFailed | Listed(peripherals: seq<Peripheral>)

  /**
   * The outcomes of the transport calls one discovery makes: the number of adapters, whether
   * the scan starts, the poll rounds that begin before the scan timeout, and whether stopping
   * the scan, connecting and service discovery succeed.
   */
  datatype Transport = Transport(
    adapterCount: nat, startScanOk: bool, polls: seq<Poll>, stopScanOk: bool, connectOk: bool, discoverOk: bool)

  /** The properties queries of the peripherals in `ps`, in order. */
  function Queries(ps: seq<Peripheral>): (q: seq<BleAction>)
    ensures |q| == |ps|
    ensures forall k :: 0 <= k < |ps| ==> q[k] == QueryProperties(ps[k].id)
  {
    if |ps| == 0 then [] else [QueryProperties(ps[0].id)] + Queries(ps[1..])
  }

  /** The queries of one round: every peripheral up to and including the first target, and no further. */
  function RoundQueries(ps: seq<Peripheral>): seq<BleAction>
  {
    match FirstIndex(ps, IsTarget)
    case Some(k) => Queries(ps[..k + 1])
    case None => Queries(ps)
  }

  /** The outcome of the polls: the chosen peripheral, the actions made, and whether a poll failed. */
  datatype ScanOutcome = ScanOutcome(found: Option<Peripheral>, trace: seq<BleAction>, pollFailed: bool)

  /**
   * The poll rounds from `round` on: each lists the peripherals and queries them in order
   * until the first target; a round without a target ends with a one-second sleep.
   */
  function ScanFrom(polls: seq<Poll>, round: nat): ScanOutcome
    requires round <= |polls|
    decreases |polls| - round
  {
    if round == |polls| then ScanOutcome(None, [], false)
    else
      match polls[round]
      case PollFailed => ScanOutcome(None, [ListPeripherals], true)
      case Listed(ps) =>
        match FirstIndex(ps, IsTarget)
        case Some(k) => ScanOutcome(Some(ps[k]), [ListPeripherals] + RoundQueries(ps), false)
        case None =>
          var rest := ScanFrom(polls, round + 1);
          ScanOutcome(rest.found, [ListPeripherals] + RoundQueries(ps) + [Sleep] + rest.trace, rest.pollFailed)
  }

  /**
   * A peripheral the polls choose is a target and comes from polls that all succeeded;
   * every remaining poll round begins by listing the peripherals.
   */
  lemma {:induction false} ScanFoundIsTarget(polls: seq<Poll>, round: nat)
    requires round <= |polls|
    ensures var r := ScanFrom(polls, round);
      (r.found.Some? ==> IsTarget(r.found.value) && !r.pollFailed) &&
      (round < |polls| ==> |r.trace| > 0 && r.trace[0] == ListPeripherals)
    decreases |polls| - round
  {
    if round < |polls| && polls[round].Listed? && FirstIndex(polls[round].peripherals, IsTarget).None? {
      ScanFoundIsTarget(polls, round + 1);
    }
  }

  /** What discovery returns and the transport actions it makes, in order. */
  function DiscoverSpec(t: Transport, timeoutSecs: nat): (r: (Result<Peripheral, BleError>, seq<BleAction>))
    ensures r.0.Ok? ==> IsTarget(r.0.value)
    ensures r.0.Err? && r.0.error.DeviceNotFound? ==> r.0.error.timeoutSecs == timeoutSecs
  {
    ScanFoundIsTarget(t.polls, 0);
    if t.adapterCount == 0 then (Err(NoAdapter), [])
    else if !t.startScanOk then (Err(TransportFailed(StartScan)), [StartScan])
    else
      var scan := ScanFrom(t.polls, 0);
      if scan.pollFailed then (Err(TransportFailed(ListPeripherals)), [StartScan] + scan.trace)
      else
        var stopped := [StartScan] + scan.trace + [StopScan];
        if !t.stopScanOk then (Err(TransportFailed(StopScan)), stopped)
        else if scan.found.None? then (Err(DeviceNotFound(timeoutSecs)), stopped)
        else
          var p := scan.found.value;
          if !t.connectOk then (Err(TransportFailed(Connect(p.id))), stopped + [Connect(p.id)])
          else if !t.discoverOk then (Err(TransportFailed(DiscoverServices)), stopped + [Connect(p.id), DiscoverServices])
          else (Ok(p), stopped + [Connect(p.id), DiscoverServices])
  }

  /**
   * One poll round: query the listed peripherals in order and stop at the first target.
   * Peripherals whose query fails, that have no properties or no local name are passed over.
   */
  method ExamineRound(ps: seq<Peripheral>) returns (found: Option<nat>, queries: seq<BleAction>)
    ensures found == FirstIndex(ps, IsTarget)
    ensures queries == RoundQueries(ps)
  {
    queries := [];
    for k := 0 to |ps|
      invariant |queries| == k
      invariant forall k2 :: 0 <= k2 < k ==> queries[k2] == QueryProperties(ps[k2].id)
      invariant forall k2 :: 0 <= k2 < k ==> !IsTarget(ps[k2])
    {
      queries := queries + [QueryProperties(ps[k].id)];
      if IsTarget(ps[k]) {
        FirstIndexIs(ps, IsTarget, k);
        assert queries == Queries(ps[..k + 1]);
        return Some(k), queries;
      }
    }
    assert FirstIndex(ps, IsTarget).None?;
    assert queries == Queries(ps);
    return None, queries;
  }

  /** The poll loop's step over a round without a target. */
  lemma ScanStep(polls: seq<Poll>, round: nat, before: seq<BleAction>, queries: seq<BleAction>)
    requires round < |polls| && polls[round].Listed?
    requires FirstIndex(polls[round].peripherals, IsTarget).None? && queries == RoundQueries(polls[round].peripherals)
    ensures var rest := ScanFrom(polls, round + 1);
      ScanFrom(polls, round) == ScanOutcome(rest.found, ScanFrom(polls, round).trace, rest.pollFailed) &&
      before + ScanFrom(polls, round).trace == before + [ListPeripherals] + queries + [Sleep] + rest.trace
  {
    var rest := ScanFrom(polls, round + 1);
    var step := [ListPeripherals] + queries + [Sleep];
    assert ScanFrom(polls, round).trace == step + rest.trace;
    assert before + (step + rest.trace) == (before + step) + rest.trace;
  }

  /** The poll rounds that end the scan: a failed poll, or a round that lists a target. */
  lemma ScanStops(polls: seq<Poll>, round: nat)
    requires round < |polls|
    ensures polls[round].PollFailed? ==> ScanFrom(polls, round) == ScanOutcome(None, [ListPeripherals], true)
    ensures polls[round].Listed? && FirstIndex(polls[round].peripherals, IsTarget).Some? ==>
      var ps := polls[round].peripherals;
      ScanFrom(polls, round) ==
        ScanOutcome(Some(ps[FirstIndex(ps, IsTarget).value]), [ListPeripherals] + RoundQueries(ps), false)
  {
  }

  /** The poll loop: one round per listed poll result, until a target is seen or a poll fails. */
  method Scan(polls: seq<Poll>) returns (found: Option<Peripheral>, scan: seq<BleAction>, pollFailed: bool)
    ensures ScanOutcome(found, scan, pollFailed) == ScanFrom(polls, 0)
  {
    ghost var whole := ScanFrom(polls, 0);
    scan := [];
    var round := 0;
    while round < |polls|
      invariant 0 <= round <= |polls|
      invariant whole.found == ScanFrom(polls, round).found
      invariant whole.trace == scan + ScanFrom(polls, round).trace
      invariant whole.pollFailed == ScanFrom(polls, round).pollFailed
    {
      ghost var before := scan;
      ScanStops(polls, round);
      if polls[round].PollFailed? {
        scan := scan + [ListPeripherals];
        return None, scan, true;
      }
      var ps := polls[round].peripherals;
      var k, queries := ExamineRound(ps);
      if k.Some? {
        scan := scan + ([ListPeripherals] + queries);
        return Some(ps[k.value]), scan, false;
      }
      ScanStep(polls, round, before, queries);
      scan := scan + [ListPeripherals] + queries + [Sleep];
      round := round + 1;
    }
    return None, scan, false;
  }

  /**
   * Discovery: fail without an adapter, start a scan, poll until a target is seen or the
   * rounds run out, stop the scan, then connect to the target and discover its services.
   */
  method Discover(t: Transport, timeoutSecs: nat) returns (r: Result<Peripheral, BleError>, trace: seq<BleAction>)
    ensures (r, trace) == DiscoverSpec(t, timeoutSecs)
  {
    if t.adapterCount == 0 {
      return Err(NoAdapter), [];
    }
    trace := [StartScan];
    if !t.startScanOk {
      return Err(TransportFailed(StartScan)), trace;
    }
    var found, scan, pollFailed := Scan(t.polls);
    trace := trace + scan;
    if pollFailed {
      return Err(TransportFailed(ListPeripherals)), trace;
    }
    trace := trace + [StopScan];
    if !t.stopScanOk {
      return Err(TransportFailed(StopScan)), trace;
    }
    if found.None? {
      return Err(DeviceNotFound(timeoutSecs)), trace;
    }
    var p := found.value;
    trace := trace + [Connect(p.id)];
    if !t.connectOk {
      return Err(TransportFailed(Connect(p.id))), trace;
    }
    trace := trace + [DiscoverServices];
    assert trace == [StartScan] + scan + [StopScan] + [Connect(p.id), DiscoverServices];
    if !t.discoverOk {
      return Err(TransportFailed(DiscoverServices)), trace;
    }
    return Ok(p), trace;
  }

  /** Round `r` listed the visible peripherals and none of them is a target. */
  predicate QuietRound(polls: seq<Poll>, r: int)
    requires 0 <= r < |polls|
  {
    polls[r].Listed? && forall k :: 0 <= k < |polls[r].peripherals| ==> !IsTarget(polls[r].peripherals[k])
  }

  /** Round `r` listed a target at position `k`, and no earlier peripheral of that round is one. */
  predicate FirstTargetAt(polls: seq<Poll>, r: int, k: int)
    requires 0 <= r < |polls|
  {
    polls[r].Listed? && 0 <= k < |polls[r].peripherals| && IsTarget(polls[r].peripherals[k]) &&
    forall k2 :: 0 <= k2 < k ==> !IsTarget(polls[r].peripherals[k2])
  }

  /**
   * The polls end in exactly one of three ways: every round is quiet (nothing found), a poll fails
   * after quiet rounds, or the first target of the first round that lists one is chosen.
   */
  lemma {:induction false} ScanFindsFirstTarget(polls: seq<Poll>, round: nat)
    requires round <= |polls|
    decreases |polls| - round
    ensures var s := ScanFrom(polls, round);
      (s.found.None? && !s.pollFailed <==> forall r :: round <= r < |polls| ==> QuietRound(polls, r)) &&
      (s.pollFailed ==>
        s.found.None? &&
        exists r :: round <= r < |polls| && polls[r].PollFailed? && forall r2 :: round <= r2 < r ==> QuietRound(polls, r2)) &&
      (s.found.Some? ==>
        !s.pollFailed &&
        exists r, k :: round <= r < |polls| && FirstTargetAt(polls, r, k) && s.found.value == polls[r].peripherals[k] &&
          forall r2 :: round <= r2 < r ==> QuietRound(polls, r2))
  {
    if round < |polls| {
      match polls[round]
      case PollFailed =>
        assert !QuietRound(polls, round);
      case Listed(ps) =>
        match FirstIndex(ps, IsTarget)
        case Some(k) =>
          assert FirstTargetAt(polls, round, k);
          assert !QuietRound(polls, round);
        case None =>
          ScanFindsFirstTarget(polls, round + 1);
          assert QuietRound(polls, round);
          var s := ScanFrom(polls, round);
          if s.found.Some? {
            var r, k :| round + 1 <= r < |polls| && FirstTargetAt(polls, r, k) && s.found.value == polls[r].peripherals[k] &&
              forall r2 :: round + 1 <= r2 < r ==> QuietRound(polls, r2);
            assert forall r2 :: round <= r2 < r ==> QuietRound(polls, r2);
          }
          if s.pollFailed {
            var r :| round + 1 <= r < |polls| && polls[r].PollFailed? && forall r2 :: round + 1 <= r2 < r ==> QuietRound(polls, r2);
            assert forall r2 :: round <= r2 < r ==> QuietRound(polls, r2);
          }
    }
  }

  /** The actions the poll rounds make. */
  predicate IsScanAction(a: BleAction)
  {
    a.ListPeripherals? || a.QueryProperties? || a.Sleep?
  }

  /** Every action of `trace` is one the poll rounds make. */
  predicate OnlyScanActions(trace: seq<BleAction>)
  {
    forall k :: 0 <= k < |trace| ==> IsScanAction(trace[k])
  }

  lemma OnlyScanActionsConcat(a: seq<BleAction>, b: seq<BleAction>)
    requires OnlyScanActions(a) && OnlyScanActions(b)
    ensures OnlyScanActions(a + b)
  {
    forall k | 0 <= k < |a + b|
      ensures IsScanAction((a + b)[k])
    {
      if k >= |a| {
        assert (a + b)[k] == b[k - |a|];
      }
    }
  }

  /** A round only lists and queries. */
  lemma RoundActions(ps: seq<Peripheral>)
    ensures OnlyScanActions([ListPeripherals] + RoundQueries(ps))
  {
    var q := RoundQueries(ps);
    assert OnlyScanActions(q) by {
      match FirstIndex(ps, IsTarget)
      case Some(i) =>
      case None =>
    }
    OnlyScanActionsConcat([ListPeripherals], q);
  }

  /** The poll rounds only list, query and sleep. */
  lemma {:induction false} ScanActionsOnly(polls: seq<Poll>, round: nat)
    requires round <= |polls|
    decreases |polls| - round
    ensures OnlyScanActions(ScanFrom(polls, round).trace)
  {
    if round < |polls| && polls[round].Listed? {
      var ps := polls[round].peripherals;
      RoundActions(ps);
      if FirstIndex(ps, IsTarget).None? {
        ScanActionsOnly(polls, round + 1);
        var step := [ListPeripherals] + RoundQueries(ps);
        OnlyScanActionsConcat(step, [Sleep]);
        OnlyScanActionsConcat(step + [Sleep], ScanFrom(polls, round + 1).trace);
      }
    }
  }

  /** Every connection in `trace` directly follows stopping the scan. */
  predicate ConnectsOnlyAfterStop(trace: seq<BleAction>)
  {
    forall k :: 0 <= k < |trace| && trace[k].Connect? ==> 0 < k && trace[k - 1] == StopScan
  }

  /** `trace` makes no connection. */
  predicate NoConnect(trace: seq<BleAction>)
  {
    forall k :: 0 <= k < |trace| ==> !trace[k].Connect?
  }

  /** Actions without connections, followed by a tail that connects only after stopping, connect only after stopping. */
  lemma ConnectsOnlyAfterStopConcat(prefix: seq<BleAction>, tail: seq<BleAction>)
    requires NoConnect(prefix)
    requires ConnectsOnlyAfterStop(tail) && (|tail| > 0 ==> !tail[0].Connect?)
    ensures ConnectsOnlyAfterStop(prefix + tail)
  {
    var whole := prefix + tail;
    assert forall k :: 0 <= k < |prefix| ==> whole[k] == prefix[k];
    assert forall k :: |prefix| <= k < |whole| ==> whole[k] == tail[k - |prefix|];
  }

  /** Starting the scan and polling make no connection. */
  lemma StartAndScanDoNotConnect(polls: seq<Poll>)
    ensures NoConnect([StartScan] + ScanFrom(polls, 0).trace)
  {
    var scan := ScanFrom(polls, 0).trace;
    ScanActionsOnly(polls, 0);
    var started := [StartScan] + scan;
    forall k | 0 < k < |started|
      ensures !started[k].Connect?
    {
      assert started[k] == scan[k - 1];
      assert IsScanAction(scan[k - 1]);
    }
  }

  /**
   * Discovery's result and actions: it fails without acting when there is no adapter, its first action
   * starts the scan, a connection is only ever made straight after the scan stops, and on success it
   * connected to a target and discovered its services last.
   */
  lemma DiscoverActionOrder(t: Transport, timeoutSecs: nat)
    ensures var (r, trace) := DiscoverSpec(t, timeoutSecs);
      (r == Err(NoAdapter) <==> t.adapterCount == 0) &&
      (r == Err(NoAdapter) <==> trace == []) &&
      (trace != [] ==> trace[0] == StartScan) &&
      ConnectsOnlyAfterStop(trace) &&
      (r == Err(DeviceNotFound(timeoutSecs)) ==> |trace| > 0 && trace[|trace| - 1] == StopScan && NoConnect(trace)) &&
      (r.Ok? ==> 3 <= |trace| && trace[|trace| - 3..] == [StopScan, Connect(r.value.id), DiscoverServices])
  {
    if t.adapterCount > 0 && t.startScanOk {
      var scan := ScanFrom(t.polls, 0);
      var started := [StartScan] + scan.trace;
      StartAndScanDoNotConnect(t.polls);
      if !scan.pollFailed {
        var tail := if !t.stopScanOk || scan.found.None? then [StopScan]
          else if !t.connectOk then [StopScan, Connect(scan.found.value.id)]
          else [StopScan, Connect(scan.found.value.id), DiscoverServices];
        ConnectsOnlyAfterStopConcat(started, tail);
        assert DiscoverSpec(t, timeoutSecs).1 == started + tail;
        if DiscoverSpec(t, timeoutSecs).0 == Err(DeviceNotFound(timeoutSecs)) {
          NoConnectStopped(started);
        }
      } else {
        ConnectsOnlyAfterStopConcat(started, []);
        assert started + [] == started;
      }
    }
  }

  /** Stopping the scan adds no connection. */
  lemma NoConnectStopped(trace: seq<BleAction>)
    requires NoConnect(trace)
    ensures NoConnect(trace + [StopScan])
  {
  }

  /**
   * Discovery connects to the first target of the first poll round that lists one, and reports the device
   * as not found exactly when every poll round is quiet and the scan starts and stops.
   */
  lemma DiscoverChoosesFirstTarget(t: Transport, timeoutSecs: nat)
    ensures var (r, trace) := DiscoverSpec(t, timeoutSecs);
      (r.Ok? ==>
        IsTarget(r.value) &&
        exists round, k :: 0 <= round < |t.polls| && FirstTargetAt(t.polls, round, k) && r.value == t.polls[round].peripherals[k] &&
          forall r2 :: 0 <= r2 < round ==> QuietRound(t.polls, r2)) &&
      (r == Err(DeviceNotFound(timeoutSecs)) <==>
        t.adapterCount > 0 && t.startScanOk && t.stopScanOk && forall round :: 0 <= round < |t.polls| ==> QuietRound(t.polls, round))
  {
    ScanFindsFirstTarget(t.polls, 0);
  }
}
