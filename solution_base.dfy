/**
 * SolutionBase (mediapipe-solutions/solution_base.cc): a MediaPipe graph
 * behind a facade. The graph engine itself is not modelled; what the facade
 * hands it is kept as state (the configuration, the side packets, the input
 * packets in the order they were fed), and what the engine answers (the status
 * of each call, the output packets it delivers) comes in as parameters.
 */
module SolutionBase {
  import opened Wrappers
  import opened Util
  import opened ProtoOptions
  import opened OptionOverrides
  import opened Carrier

  /** Every key of `m` names its own carrier object. */
  ghost predicate DistinctCarriers(m: map<string, Any>) {
    forall k1, k2 :: k1 in m && k2 in m && k1 != k2 ==> m[k1] != m[k2]
  }

  /** The holders the carriers of `m` currently share. */
  function Holders(m: map<string, Any>): (h: map<string, Holder?>)
    reads m.Values
    ensures h.Keys == m.Keys
  {
    map k | k in m :: m[k].holder
  }

  /** Packets sharing the holders of `holders`, each stamped `ts`. */
  function Stamped(holders: map<string, Holder?>, ts: Timestamp): (packets: map<string, Packet>)
    ensures packets.Keys == holders.Keys
    ensures forall k :: k in holders ==> packets[k].holder == holders[k] && packets[k].timestamp == ts
  {
    map k | k in holders :: Packet(holders[k], ts)
  }

  /** The names whose output slot holds a packet. */
  function NonEmptyNames(outputs: map<string, Packet>): (names: set<string>)
    ensures names <= outputs.Keys
    ensures forall n :: n in outputs ==> (n in names <==> !outputs[n].IsEmpty())
  {
    set n | n in outputs && !outputs[n].IsEmpty()
  }

  /** The output slots after their packets were moved out: every slot empty, timestamps kept. */
  function Drained(outputs: map<string, Packet>): (d: map<string, Packet>)
    ensures d.Keys == outputs.Keys
    ensures NonEmptyNames(d) == {}
    ensures forall n :: n in outputs && outputs[n].IsEmpty() ==> d[n] == outputs[n]
  {
    map n | n in outputs :: outputs[n].(holder := null)
  }

  /** The packets fed for the streams of `order`, in that order, each stamped `ts`. */
  function Feeds(order: seq<string>, holders: map<string, Holder?>, ts: Timestamp): (f: seq<(string, Packet)>)
    requires forall j :: 0 <= j < |order| ==> order[j] in holders
    ensures |f| == |order|
    ensures forall j :: 0 <= j < |order| ==> f[j] == (order[j], Packet(holders[order[j]], ts))
  {
    if order == [] then []
    else Feeds(order[..|order| - 1], holders, ts) + [(order[|order| - 1], Packet(holders[order[|order| - 1]], ts))]
  }

  /** `order` lists distinct keys of `m`. */
  ghost predicate VisitOrder(order: seq<string>, m: map<string, Any>) {
    (forall j :: 0 <= j < |order| ==> order[j] in m) &&
    (forall i, j :: 0 <= i < j < |order| ==> order[i] != order[j])
  }

  /**
   * The side inputs going out of scope when Init throws before its
   * side-packet loop: Init holds them by value, so every carrier is destroyed
   * and its holder released.
   */
  method Release(sideInputs: map<string, Any>)
    modifies sideInputs.Values
    ensures forall k :: k in sideInputs ==> sideInputs[k].holder == null
  {
    var rest := sideInputs.Keys;
    while rest != {}
      invariant rest <= sideInputs.Keys
      invariant forall k :: k in sideInputs && k !in rest ==> sideInputs[k].holder == null
      decreases rest
    {
      var k :| k in rest;
      sideInputs[k].holder := null;
      rest := rest - {k};
    }
  }

  /**
   * The side-packet loop of Init (solution_base.cc:236-244): every carrier is
   * moved into a packet stamped `ts`.
   */
  method MoveSideInputs(sideInputs: map<string, Any>, ts: Timestamp) returns (packets: map<string, Packet>)
    requires DistinctCarriers(sideInputs)
    modifies sideInputs.Values
    ensures packets == Stamped(old(Holders(sideInputs)), ts)
    ensures forall k :: k in sideInputs ==> sideInputs[k].holder == null
  {
    ghost var held := Holders(sideInputs);
    packets := map[];
    var todo := sideInputs.Keys;
    while todo != {}
      invariant todo <= sideInputs.Keys
      invariant packets.Keys == sideInputs.Keys - todo
      invariant forall k :: k in packets ==> packets[k] == Packet(held[k], ts)
      invariant forall k :: k in sideInputs ==>
        sideInputs[k].holder == if k in todo then held[k] else null
      decreases |todo|
    {
      var k :| k in todo;
      var p := sideInputs[k].MoveAt(ts);
      packets := packets[k := p];
      todo := todo - {k};
    }
  }

  /** The keys of `keys` listed once each, in an unspecified order. */
  method SomeOrder(keys: set<string>) returns (order: seq<string>)
    ensures forall j :: 0 <= j < |order| ==> order[j] in keys
    ensures forall i, j :: 0 <= i < j < |order| ==> order[i] != order[j]
    ensures forall k :: k in keys ==> k in order
    ensures |order| == |keys|
  {
    order := [];
    var todo := keys;
    while todo != {}
      invariant todo <= keys
      invariant |order| + |todo| == |keys|
      invariant forall j :: 0 <= j < |order| ==> order[j] in keys && order[j] !in todo
      invariant forall i, j :: 0 <= i < j < |order| ==> order[i] != order[j]
      invariant forall k :: k in keys ==> k in todo || k in order
      decreases |todo|
    {
      var k :| k in todo;
      order := order + [k];
      todo := todo - {k};
    }
  }

  /** The carriers of the first `n` keys are empty; the others still share their holders. */
  ghost predicate MovedFirst(inputs: map<string, Any>, keys: seq<string>, holders: map<string, Holder?>, n: nat)
    reads inputs.Values
  {
    forall j :: 0 <= j < |keys| && keys[j] in inputs && keys[j] in holders ==>
      inputs[keys[j]].holder == if j < n then null else holders[keys[j]]
  }

  /** Moves the carrier of `keys[i]` into a packet stamped `ts`; the other carriers stay as they are. */
  method MoveNext(inputs: map<string, Any>, keys: seq<string>, i: nat, ts: Timestamp, ghost holders: map<string, Holder?>)
    returns (p: Packet)
    requires i < |keys|
    requires DistinctCarriers(inputs)
    requires forall a, b :: 0 <= a < b < |keys| ==> keys[a] != keys[b]
    requires forall j :: 0 <= j < |keys| ==> keys[j] in inputs && keys[j] in holders
    requires MovedFirst(inputs, keys, holders, i)
    modifies inputs[keys[i]]
    ensures p == Packet(holders[keys[i]], ts)
    ensures MovedFirst(inputs, keys, holders, i + 1)
  {
    var k := keys[i];
    p := inputs[k].MoveAt(ts);
    forall j | 0 <= j < |keys| && keys[j] != k
      ensures inputs[keys[j]].holder == if j < i + 1 then null else holders[keys[j]]
    {
      assert inputs[keys[j]] != inputs[k];
    }
  }

  /**
   * The feeding loop of Process over a fixed visiting order `keys`: `n`
   * carriers are moved out; `sent` holds the packets fed, and `failed` the
   * status of a feed that failed, which is the last one visited.
   */
  method FeedLoop(inputs: map<string, Any>, keys: seq<string>, ts: Timestamp, feedStatus: string -> Status,
                  ghost holders: map<string, Holder?>)
    returns (sent: seq<(string, Packet)>, n: nat, failed: Option<Status>)
    requires DistinctCarriers(inputs)
    requires forall a, b :: 0 <= a < b < |keys| ==> keys[a] != keys[b]
    requires forall j :: 0 <= j < |keys| ==> keys[j] in inputs && keys[j] in holders
    requires MovedFirst(inputs, keys, holders, 0)
    modifies inputs.Values
    ensures n <= |keys| && MovedFirst(inputs, keys, holders, n)
    ensures forall j :: 0 <= j < n - 1 ==> feedStatus(keys[j]).IsOk()
    ensures failed.Some? ==>
      0 < n && failed.value == feedStatus(keys[n - 1]) && !failed.value.IsOk() &&
      sent == Feeds(keys[..n - 1], holders, ts)
    ensures failed.None? ==>
      n == |keys| && (forall j :: 0 <= j < n ==> feedStatus(keys[j]).IsOk()) &&
      sent == Feeds(keys, holders, ts)
  {
    sent := [];
    n := 0;
    while n < |keys|
      invariant n <= |keys| && MovedFirst(inputs, keys, holders, n)
      invariant forall j :: 0 <= j < n ==> feedStatus(keys[j]).IsOk()
      invariant sent == Feeds(keys[..n], holders, ts)
    {
      var p := MoveNext(inputs, keys, n, ts, holders);
      assert keys[..n + 1][..n] == keys[..n];
      var status := feedStatus(keys[n]);
      if !status.IsOk() {
        return sent, n + 1, Some(status);
      }
      sent := sent + [(keys[n], p)];
      n := n + 1;
    }
    assert keys[..n] == keys;
    failed := None;
  }

  /** The carriers' holders after the first `n` keys of `keys` were moved out, stated by key. */
  lemma HoldersAfter(keys: seq<string>, n: nat, inputs: map<string, Any>, holders: map<string, Holder?>)
    requires n <= |keys|
    requires forall j :: 0 <= j < |keys| ==> keys[j] in inputs && keys[j] in holders
    requires forall i, j :: 0 <= i < j < |keys| ==> keys[i] != keys[j]
    requires forall k :: k in inputs ==> k in keys
    requires MovedFirst(inputs, keys, holders, n)
    ensures EmptiedExactly(inputs, keys[..n], holders)
  {
    forall k | k in inputs ensures inputs[k].holder == if k in keys[..n] then null else holders[k] {
      var j :| 0 <= j < |keys| && keys[j] == k;
      if k in keys[..n] {
        var i :| 0 <= i < n && keys[..n][i] == k;
        assert keys[i] == keys[j];
      }
    }
  }

  /** The carriers of the keys in `order` are empty; every other carrier still shares its holder. */
  ghost predicate EmptiedExactly(inputs: map<string, Any>, order: seq<string>, holders: map<string, Holder?>)
    reads inputs.Values
  {
    forall k :: k in inputs && k in holders ==> inputs[k].holder == if k in order then null else holders[k]
  }

  /**
   * The feeding loop of Process (solution_base.cc:258-260). Each visited
   * input is moved out of its carrier into a packet stamped `ts`; `feedStatus`
   * is the engine's answer for a stream. `order` is the order the inputs were
   * visited in; `sent` the packets the engine accepted. A failing feed is the
   * last one visited and its status is returned.
   */
  method FeedInputs(inputs: map<string, Any>, ts: Timestamp, feedStatus: string -> Status)
    returns (sent: seq<(string, Packet)>, failed: Option<Status>, ghost order: seq<string>)
    requires DistinctCarriers(inputs)
    modifies inputs.Values
    ensures VisitOrder(order, inputs) && |order| <= |inputs|
    ensures EmptiedExactly(inputs, order, old(Holders(inputs)))
    ensures forall j :: 0 <= j < |order| - 1 ==> feedStatus(order[j]).IsOk()
    ensures failed.Some? ==>
      && |order| > 0 && failed.value == feedStatus(order[|order| - 1]) && !failed.value.IsOk()
      && sent == Feeds(order[..|order| - 1], old(Holders(inputs)), ts)
    ensures failed.None? ==>
      && (forall k :: k in inputs ==> k in order)
      && (forall j :: 0 <= j < |order| ==> feedStatus(order[j]).IsOk())
      && sent == Feeds(order, old(Holders(inputs)), ts)
  {
    ghost var holders := Holders(inputs);
    var keys := SomeOrder(inputs.Keys);
    var n;
    sent, n, failed := FeedLoop(inputs, keys, ts, feedStatus, holders);
    order := keys[..n];
    HoldersAfter(keys, n, inputs, holders);
    PrefixOrder(keys, n, inputs, feedStatus);
  }

  /** A prefix of a visiting order of all keys is a visiting order, and all of it covers the keys. */
  lemma PrefixOrder(keys: seq<string>, n: nat, inputs: map<string, Any>, feedStatus: string -> Status)
    requires n <= |keys| == |inputs.Keys|
    requires forall j :: 0 <= j < |keys| ==> keys[j] in inputs
    requires forall a, b :: 0 <= a < b < |keys| ==> keys[a] != keys[b]
    requires forall k :: k in inputs ==> k in keys
    requires forall j :: 0 <= j < n - 1 ==> feedStatus(keys[j]).IsOk()
    ensures VisitOrder(keys[..n], inputs) && |keys[..n]| <= |inputs|
    ensures forall j :: 0 <= j < |keys[..n]| - 1 ==> feedStatus(keys[..n][j]).IsOk()
    ensures n > 0 ==> keys[..n][..n - 1] == keys[..n - 1] && keys[..n][n - 1] == keys[n - 1]
    ensures n == |keys| ==> keys[..n] == keys
  {
  }

  class Solution {
    /** The configuration handed to the graph, with the option overrides applied. */
    var config: seq<Node>
    /** graph_outputs_: the latest packet observed on each declared output stream. */
    var outputs: map<string, Packet>
    /** The input side packets the run was started with. */
    var sidePackets: map<string, Packet>
    /** Every packet added to an input stream, in the order it was added. */
    var fed: seq<(string, Packet)>

    /** An object before Init: no configuration, no slots, nothing fed. */
    constructor ()
      ensures config == [] && outputs == map[] && sidePackets == map[] && fed == []
    {
      config := [];
      outputs := map[];
      sidePackets := map[];
      fed := [];
    }

    /**
     * Init (solution_base.cc:189-247). `validated` is the configuration as
     * ValidatedGraphConfig leaves it, `elapsed` the microseconds since the
     * start time read just before, `startStatus` what StartRun answers;
     * `groups` is the grouping the unspecified order of `options` produced.
     * Init takes the side inputs by value (the constructors move the caller's
     * map into it), so whatever the outcome the carriers end up empty; a
     * failure before StartRun leaves the object untouched.
     */
    method Init(validated: seq<Node>, sideInputs: map<string, Any>, outputNames: seq<string>,
                options: map<string, AnyValue>, elapsed: nat, startStatus: Status)
      returns (r: Outcome<Error>, ghost groups: map<string, Group>)
      requires DistinctCarriers(sideInputs)
      modifies this, sideInputs.Values
      ensures fed == old(fed)
      ensures forall k :: k in sideInputs ==> sideInputs[k].holder == null
      ensures (exists key :: key in options && '.' !in key) ==>
        r == Fail(AtOutOfRange) && unchanged(this)
      ensures (forall key :: key in options ==> '.' in key) ==> GroupsOf(options, groups)
      ensures (forall key :: key in options ==> '.' in key) && Walk(validated, groups).Failure? ==>
        r == Fail(Walk(validated, groups).error) && unchanged(this)
      ensures (forall key :: key in options ==> '.' in key) && Walk(validated, groups).Success? ==>
        && config == Walk(validated, groups).value
        && outputs.Keys == old(outputs).Keys + (set n | n in outputNames)
        && (forall n :: n in outputs ==> outputs[n] == if n in old(outputs) then old(outputs)[n] else EmptyPacket)
        && sidePackets == Stamped(old(Holders(sideInputs)), Micros(elapsed))
        && r == ThrowIfNotOk(startStatus)
    {
      var patched;
      patched, groups := ApplyOverrides(validated, options);
      if patched.Failure? {
        Release(sideInputs);
        return Fail(patched.error), groups;
      }
      r := Start(patched.value, outputNames, sideInputs, elapsed, startStatus);
    }

    /**
     * The part of Init after the overrides were applied (solution_base.cc:225-246):
     * the patched configuration is kept, the output slots registered, the side
     * inputs moved into packets and the run started.
     */
    method Start(patched: seq<Node>, outputNames: seq<string>, sideInputs: map<string, Any>,
                 elapsed: nat, startStatus: Status) returns (r: Outcome<Error>)
      requires DistinctCarriers(sideInputs)
      modifies this, sideInputs.Values
      ensures config == patched && fed == old(fed)
      ensures outputs.Keys == old(outputs).Keys + (set n | n in outputNames)
      ensures forall n :: n in outputs ==> outputs[n] == if n in old(outputs) then old(outputs)[n] else EmptyPacket
      ensures sidePackets == Stamped(old(Holders(sideInputs)), Micros(elapsed))
      ensures forall k :: k in sideInputs ==> sideInputs[k].holder == null
      ensures r == ThrowIfNotOk(startStatus)
    {
      config := patched;
      RegisterOutputs(outputNames);
      var packets := MoveSideInputs(sideInputs, Micros(elapsed));
      sidePackets := packets;
      r := ThrowIfNotOk(startStatus);
    }

    /** The slot registration loop of Init (solution_base.cc:228-234): `emplace` keeps an existing slot. */
    method RegisterOutputs(outputNames: seq<string>)
      modifies this
      ensures outputs.Keys == old(outputs).Keys + (set n | n in outputNames)
      ensures forall n :: n in outputs ==> outputs[n] == if n in old(outputs) then old(outputs)[n] else EmptyPacket
      ensures config == old(config) && sidePackets == old(sidePackets) && fed == old(fed)
    {
      var i := 0;
      while i < |outputNames|
        invariant 0 <= i <= |outputNames|
        invariant outputs.Keys == old(outputs).Keys + (set j | 0 <= j < i :: outputNames[j])
        invariant forall n :: n in outputs ==> outputs[n] == if n in old(outputs) then old(outputs)[n] else EmptyPacket
        invariant config == old(config) && sidePackets == old(sidePackets) && fed == old(fed)
      {
        if outputNames[i] !in outputs {
          outputs := outputs[outputNames[i] := EmptyPacket];
        }
        assert (set j | 0 <= j < i + 1 :: outputNames[j]) == (set j | 0 <= j < i :: outputNames[j]) + {outputNames[i]};
        i := i + 1;
      }
      assert (set j | 0 <= j < |outputNames| :: outputNames[j]) == (set n | n in outputNames);
    }

    /**
     * The observer registered for each output stream (solution_base.cc:230-233):
     * the delivered packet replaces the slot's; `at` fails for an undeclared name.
     */
    method Deliver(name: string, p: Packet) returns (o: Outcome<Error>)
      modifies this
      ensures name in old(outputs) ==> o == Pass && outputs == old(outputs)[name := p]
      ensures name !in old(outputs) ==> o == Fail(AtOutOfRange) && outputs == old(outputs)
      ensures outputs.Keys == old(outputs).Keys
      ensures config == old(config) && sidePackets == old(sidePackets) && fed == old(fed)
    {
      if name !in outputs {
        return Fail(AtOutOfRange);
      }
      outputs := outputs[name := p];
      o := Pass;
    }

    /**
     * Process (solution_base.cc:255-272): the inputs are fed with the
     * timestamp `elapsed`, then `idleStatus` is WaitUntilIdle's answer; on
     * success the non-empty output slots are moved into fresh carriers and
     * left empty. A feed failure is raised for the last input visited.
     */
    method Process(inputs: map<string, Any>, elapsed: nat, feedStatus: string -> Status, idleStatus: Status)
      returns (r: Result<map<string, Any>, Error>, ghost order: seq<string>)
      requires DistinctCarriers(inputs)
      modifies this, inputs.Values
      ensures VisitOrder(order, inputs) && |order| <= |inputs|
      ensures EmptiedExactly(inputs, order, old(Holders(inputs)))
      ensures config == old(config) && sidePackets == old(sidePackets)
      ensures outputs.Keys == old(outputs).Keys
      ensures forall j :: 0 <= j < |order| - 1 ==> feedStatus(order[j]).IsOk()
      ensures (exists k :: k in inputs && !feedStatus(k).IsOk()) ==>
        && |order| > 0 && !feedStatus(order[|order| - 1]).IsOk()
        && r == Failure(ThrowError(feedStatus(order[|order| - 1])))
        && fed == old(fed) + Feeds(order[..|order| - 1], old(Holders(inputs)), Micros(elapsed))
        && outputs == old(outputs)
      ensures (forall k :: k in inputs ==> feedStatus(k).IsOk()) ==>
        && (forall k :: k in inputs ==> k in order)
        && fed == old(fed) + Feeds(order, old(Holders(inputs)), Micros(elapsed))
        && (!idleStatus.IsOk() ==> r == Failure(ThrowError(idleStatus)) && outputs == old(outputs))
        && (idleStatus.IsOk() ==>
              && r.Success?
              && r.value.Keys == NonEmptyNames(old(outputs))
              && (forall n :: n in r.value ==> fresh(r.value[n]) && r.value[n].holder == old(outputs)[n].holder)
              && outputs == Drained(old(outputs)))
    {
      var sent, failed;
      sent, failed, order := FeedInputs(inputs, Micros(elapsed), feedStatus);
      fed := fed + sent;
      if failed.Some? {
        return Failure(ThrowError(failed.value)), order;
      }
      if !idleStatus.IsOk() {
        return Failure(ThrowError(idleStatus)), order;
      }
      var result := DrainOutputs();
      r := Success(result);
    }

    /** The output loop of Process (solution_base.cc:266-269). */
    method DrainOutputs() returns (result: map<string, Any>)
      modifies this
      ensures result.Keys == NonEmptyNames(old(outputs))
      ensures forall n :: n in result ==> fresh(result[n]) && result[n].holder == old(outputs)[n].holder
      ensures outputs == Drained(old(outputs))
      ensures config == old(config) && sidePackets == old(sidePackets) && fed == old(fed)
    {
      ghost var start := outputs;
      result := map[];
      var todo := outputs.Keys;
      while todo != {}
        invariant todo <= start.Keys && outputs.Keys == start.Keys
        invariant forall n :: n in start ==> outputs[n] == if n in todo then start[n] else start[n].(holder := null)
        invariant result.Keys == NonEmptyNames(start) - todo
        invariant forall n :: n in result ==> fresh(result[n]) && result[n].holder == start[n].holder
        invariant config == old(config) && sidePackets == old(sidePackets) && fed == old(fed)
        decreases |todo|
      {
        var n :| n in todo;
        if !outputs[n].IsEmpty() {
          var a, rest := Any.TakePacket(outputs[n]);
          outputs := outputs[n := rest];
          result := result[n := a];
        }
        todo := todo - {n};
      }
    }

    /**
     * Process with a single input (solution_base.cc:274-279): the one packet
     * is fed, or its feed failure is raised.
     */
    method ProcessSingle(stream: string, input: Any, elapsed: nat, feedStatus: string -> Status, idleStatus: Status)
      returns (r: Result<map<string, Any>, Error>)
      modifies this, input
      ensures input.holder == null
      ensures config == old(config) && sidePackets == old(sidePackets)
      ensures outputs.Keys == old(outputs).Keys
      ensures !feedStatus(stream).IsOk() ==>
        r == Failure(ThrowError(feedStatus(stream))) && fed == old(fed) && outputs == old(outputs)
      ensures feedStatus(stream).IsOk() ==>
        && fed == old(fed) + [(stream, Packet(old(input.holder), Micros(elapsed)))]
        && (!idleStatus.IsOk() ==> r == Failure(ThrowError(idleStatus)) && outputs == old(outputs))
        && (idleStatus.IsOk() ==>
              && r.Success?
              && r.value.Keys == NonEmptyNames(old(outputs))
              && (forall n :: n in r.value ==> fresh(r.value[n]) && r.value[n].holder == old(outputs)[n].holder)
              && outputs == Drained(old(outputs)))
    {
      var inputs := map[stream := input];
      ghost var order;
      r, order := Process(inputs, elapsed, feedStatus, idleStatus);
      assert |inputs| == 1;
      if order != [] {
        assert order[0] == stream && order == [stream];
      }
    }

    /** Close (solution_base.cc:249-253): the output slots are cleared. */
    method Close()
      modifies this
      ensures outputs == map[]
      ensures config == old(config) && sidePackets == old(sidePackets) && fed == old(fed)
    {
      outputs := map[];
    }
  }

  /**
   * The constructor taking a parsed configuration (solution_base.cc:166-173):
   * a new object on which Init ran; every declared output starts with an
   * empty slot.
   */
  method Create(validated: seq<Node>, sideInputs: map<string, Any>, outputNames: seq<string>,
                options: map<string, AnyValue>, elapsed: nat, startStatus: Status)
    returns (s: Solution, r: Outcome<Error>, ghost groups: map<string, Group>)
    requires DistinctCarriers(sideInputs)
    modifies sideInputs.Values
    ensures fresh(s) && s.fed == []
    ensures forall k :: k in sideInputs ==> sideInputs[k].holder == null
    ensures (exists key :: key in options && '.' !in key) ==> r == Fail(AtOutOfRange)
    ensures (forall key :: key in options ==> '.' in key) ==> GroupsOf(options, groups)
    ensures (forall key :: key in options ==> '.' in key) && Walk(validated, groups).Failure? ==>
      r == Fail(Walk(validated, groups).error)
    ensures (forall key :: key in options ==> '.' in key) && Walk(validated, groups).Success? ==>
      && s.config == Walk(validated, groups).value
      && s.outputs == (map n | n in outputNames :: EmptyPacket)
      && s.sidePackets == Stamped(old(Holders(sideInputs)), Micros(elapsed))
      && r == ThrowIfNotOk(startStatus)
  {
    s := new Solution();
    r, groups := s.Init(validated, sideInputs, outputNames, options, elapsed, startStatus);
  }
}
