/**
 * Option overrides of SolutionBase::Init (mediapipe-solutions/solution_base.cc:199-223):
 * each key "<node>.<field>" is split at '.', the overrides are grouped by node
 * name, and the configuration's nodes are walked once in order, patching the
 * options of the first node with each name.
 */
module OptionOverrides {
  import opened Wrappers
  import opened Util
  import opened ProtoOptions

  /** A configuration node: its name and, when it has one, its options message. */
  datatype Node = Node(name: string, calculator: string, options: Option<Message>)

  /** The overrides for one node: field name and value, in iteration order. */
  type Group = seq<(string, AnyValue)>

  const NodeMissingOptions: Error := OutOfRangeError("Node is missing options.")
  const NoSuchNodes: Error := OutOfRangeError("No such node(s) exists.")

  // ---------------------------------------------------------------------------
  // Splitting a key

  /** absl::StrSplit(s, '.'): the pieces between the dots, at least one. */
  function Split(s: string): (parts: seq<string>)
    ensures |parts| > 0
    ensures forall i :: 0 <= i < |parts| ==> '.' !in parts[i]
  {
    if s == [] then [""]
    else
      var rest := Split(s[1..]);
      if s[0] == '.' then [""] + rest
      else [[s[0]] + rest[0]] + rest[1..]
  }

  /** The pieces glued back together with dots. */
  function Join(parts: seq<string>): string
    requires |parts| > 0
  {
    if |parts| == 1 then parts[0] else parts[0] + "." + Join(parts[1..])
  }

  /** Splitting loses nothing: the pieces join back to the key. */
  lemma {:induction false} JoinSplit(s: string)
    ensures Join(Split(s)) == s
  {
    if s != [] {
      JoinSplit(s[1..]);
      var rest := Split(s[1..]);
      if s[0] == '.' {
        assert [""] + rest == [""] + rest;
        assert s == [s[0]] + s[1..];
      } else {
        var parts := [[s[0]] + rest[0]] + rest[1..];
        if |rest| == 1 {
          assert s == [s[0]] + s[1..];
        } else {
          assert parts[1..] == rest[1..];
          assert Join(rest) == rest[0] + "." + Join(rest[1..]);
          assert s == [s[0]] + s[1..];
        }
      }
    }
  }

  /** A piece without dots splits to itself. */
  lemma {:induction false} SplitNoDot(s: string)
    requires '.' !in s
    ensures Split(s) == [s]
  {
    if s != [] {
      assert '.' !in s[1..];
      SplitNoDot(s[1..]);
      assert s == [s[0]] + s[1..];
    }
  }

  /** A dot-free head followed by a dot splits off as the first piece. */
  lemma {:induction false} SplitAtDot(a: string, rest: string)
    requires '.' !in a
    ensures Split(a + "." + rest) == [a] + Split(rest)
  {
    if a == [] {
      assert a + "." + rest == ['.'] + rest;
      assert (['.'] + rest)[1..] == rest;
    } else {
      var s := a + "." + rest;
      assert s[1..] == a[1..] + "." + rest;
      assert '.' !in a[1..];
      SplitAtDot(a[1..], rest);
      assert s[0] == a[0] && s[0] != '.';
      assert a == [a[0]] + a[1..];
    }
  }

  /** Dot-free pieces joined with dots split back into the same pieces. */
  lemma {:induction false} SplitJoin(parts: seq<string>)
    requires |parts| > 0
    requires forall i :: 0 <= i < |parts| ==> '.' !in parts[i]
    ensures Split(Join(parts)) == parts
  {
    if |parts| == 1 {
      SplitNoDot(parts[0]);
    } else {
      SplitJoin(parts[1..]);
      SplitAtDot(parts[0], Join(parts[1..]));
      assert parts == [parts[0]] + parts[1..];
    }
  }

  /** A key splits into a single piece exactly when it has no dot. */
  lemma {:induction false} SplitSingle(s: string)
    ensures |Split(s)| == 1 <==> '.' !in s
  {
    if s != [] {
      SplitSingle(s[1..]);
      assert s == [s[0]] + s[1..];
    }
  }

  /**
   * `splitName.at(0)` and `splitName.at(1)`: node and field name; a key without
   * a dot fails in `at(1)`, and pieces after the second are ignored.
   */
  function SplitKey(key: string): (r: Result<(string, string), Error>)
    ensures r.Failure? <==> '.' !in key
    ensures r.Failure? ==> r.error == AtOutOfRange
    ensures r.Success? ==> '.' !in r.value.0 && '.' !in r.value.1
  {
    SplitSingle(key);
    var parts := Split(key);
    if |parts| < 2 then Failure(AtOutOfRange) else Success((parts[0], parts[1]))
  }

  /** "<node>.<field>", alone or followed by ".<anything>", splits into node and field. */
  lemma SplitKeyOf(node: string, field: string, rest: string)
    requires '.' !in node && '.' !in field
    ensures SplitKey(node + "." + field) == Success((node, field))
    ensures SplitKey(node + "." + field + "." + rest) == Success((node, field))
  {
    SplitNoDot(field);
    SplitAtDot(node, field);
    SplitAtDot(field, rest);
    SplitAtDot(node, field + "." + rest);
    assert node + "." + field + "." + rest == node + "." + (field + "." + rest);
  }

  // ---------------------------------------------------------------------------
  // Grouping by node name

  predicate HasFieldName(g: Group, field: string) {
    exists j :: 0 <= j < |g| && g[j].0 == field
  }

  ghost predicate DistinctFieldNames(g: Group) {
    forall j, k :: 0 <= j < k < |g| ==> g[j].0 != g[k].0
  }

  /** Some override key splits to (node, field) and carries value v. */
  ghost predicate FromSomeKey(options: map<string, AnyValue>, node: string, field: string, v: AnyValue) {
    exists key :: key in options && SplitKey(key) == Success((node, field)) && options[key] == v
  }

  ghost predicate GroupFrom(options: map<string, AnyValue>, node: string, g: Group) {
    |g| > 0 && DistinctFieldNames(g) &&
    forall j :: 0 <= j < |g| ==> FromSomeKey(options, node, g[j].0, g[j].1)
  }

  ghost predicate KeyGrouped(groups: map<string, Group>, key: string) {
    SplitKey(key).Success? &&
    SplitKey(key).value.0 in groups &&
    HasFieldName(groups[SplitKey(key).value.0], SplitKey(key).value.1)
  }

  /**
   * `groups` is a grouping of `options`: every key lands in the group of its
   * node under its field name, and every group entry comes from some key.
   * When two keys split to the same node and field, only one of them lands.
   */
  ghost predicate GroupsOf(options: map<string, AnyValue>, groups: map<string, Group>) {
    (forall key :: key in options ==> KeyGrouped(groups, key)) &&
    (forall node :: node in groups ==> GroupFrom(options, node, groups[node]))
  }

  /** `groups[node].emplace(field, v)`: a field already present keeps its first value. */
  function Emplace(groups: map<string, Group>, node: string, field: string, v: AnyValue): map<string, Group> {
    var g := if node in groups then groups[node] else [];
    groups[node := if HasFieldName(g, field) then g else g + [(field, v)]]
  }

  /** Emplacing the entry of one more key keeps `groups` a grouping of the keys seen so far. */
  lemma EmplaceKeepsGrouping(options: map<string, AnyValue>, groups: map<string, Group>, done: set<string>, key: string)
    requires key in options && SplitKey(key).Success?
    requires forall k :: k in done ==> KeyGrouped(groups, k)
    requires forall node :: node in groups ==> GroupFrom(options, node, groups[node])
    ensures forall k :: k in done + {key} ==>
      KeyGrouped(Emplace(groups, SplitKey(key).value.0, SplitKey(key).value.1, options[key]), k)
    ensures forall node :: node in Emplace(groups, SplitKey(key).value.0, SplitKey(key).value.1, options[key]) ==>
      GroupFrom(options, node, Emplace(groups, SplitKey(key).value.0, SplitKey(key).value.1, options[key])[node])
  {
    var node, field, v := SplitKey(key).value.0, SplitKey(key).value.1, options[key];
    var g := if node in groups then groups[node] else [];
    var g' := if HasFieldName(g, field) then g else g + [(field, v)];
    var groups' := Emplace(groups, node, field, v);
    assert groups' == groups[node := g'];
    assert forall j :: 0 <= j < |g| ==> g'[j] == g[j];
    assert HasFieldName(g', field) by {
      if !HasFieldName(g, field) { assert g'[|g|].0 == field; }
    }
    forall k | k in done + {key} ensures KeyGrouped(groups', k) {
      if k != key {
        var n, f := SplitKey(k).value.0, SplitKey(k).value.1;
        if n == node {
          var j :| 0 <= j < |g| && g[j].0 == f;
          assert g'[j].0 == f;
        }
      }
    }
    assert GroupFrom(options, node, g') by {
      if !HasFieldName(g, field) {
        assert FromSomeKey(options, node, field, v);
        forall j | 0 <= j < |g'| ensures FromSomeKey(options, node, g'[j].0, g'[j].1) {
          if j < |g| { assert g'[j] == g[j]; }
        }
      }
    }
  }

  /**
   * The grouping loop of Init (solution_base.cc:199-204). The keys are visited
   * in an unspecified order; `emplace` keeps the first entry for a field.
   */
  method GroupOverrides(options: map<string, AnyValue>) returns (r: Result<map<string, Group>, Error>)
    ensures r.Failure? <==> exists key :: key in options && '.' !in key
    ensures r.Failure? ==> r.error == AtOutOfRange
    ensures r.Success? ==> GroupsOf(options, r.value)
  {
    var groups: map<string, Group> := map[];
    var todo := options.Keys;
    while todo != {}
      invariant todo <= options.Keys
      invariant forall key :: key in options.Keys - todo ==> KeyGrouped(groups, key)
      invariant forall node :: node in groups ==> GroupFrom(options, node, groups[node])
      decreases |todo|
    {
      var key :| key in todo;
      var split := SplitKey(key);
      if split.Failure? {
        return Failure(split.error);
      }
      EmplaceKeepsGrouping(options, groups, options.Keys - todo, key);
      groups := Emplace(groups, split.value.0, split.value.1, options[key]);
      assert options.Keys - (todo - {key}) == (options.Keys - todo) + {key};
      todo := todo - {key};
    }
    assert options.Keys - todo == options.Keys;
    assert forall key :: key in options ==> '.' in key by {
      forall key | key in options ensures '.' in key {
        assert KeyGrouped(groups, key);
      }
    }
    r := Success(groups);
  }

  // ---------------------------------------------------------------------------
  // Applying a group to one node's options

  /** The overrides of a group applied in order; the first failure stops. */
  function GroupApplied(m: Message, g: Group): Result<Message, Error>
    decreases |g|
  {
    if g == [] then Success(m)
    else
      match Patched(m, g[0].0, g[0].1)
      case Failure(e) => Failure(e)
      case Success(m1) => GroupApplied(m1, g[1..])
  }

  /** The inner loop of Init's node walk (solution_base.cc:215-216). */
  method ApplyGroup(m: Message, g: Group) returns (r: Result<Message, Error>)
    ensures r == GroupApplied(m, g)
  {
    var current := m;
    var i := 0;
    while i < |g|
      invariant 0 <= i <= |g|
      invariant GroupApplied(m, g) == GroupApplied(current, g[i..])
    {
      var next := SetField(current, g[i].0, g[i].1);
      assert g[i..][0] == g[i] && g[i..][1..] == g[i + 1..];
      if next.Failure? {
        return Failure(next.error);
      }
      current := next.value;
      i := i + 1;
    }
    r := Success(current);
  }

  /** Applying well-formed values to well-formed options keeps them well formed. */
  lemma {:induction false} GroupAppliedKeepsWellFormed(m: Message, g: Group)
    requires WellFormed(m)
    requires forall j :: 0 <= j < |g| ==> WellFormedValue(g[j].1)
    requires GroupApplied(m, g).Success?
    ensures WellFormed(GroupApplied(m, g).value)
    decreases |g|
  {
    if g != [] {
      PatchedKeepsWellFormed(m, g[0].0, g[0].1);
      var m1 := Patched(m, g[0].0, g[0].1).value;
      assert forall j :: 0 <= j < |g[1..]| ==> g[1..][j] == g[j + 1];
      GroupAppliedKeepsWellFormed(m1, g[1..]);
    }
  }

  /** No field of the group is named `ext`. */
  ghost predicate NoExtField(g: Group) {
    forall j :: 0 <= j < |g| ==> g[j].0 != ExtName
  }

  /** A name the group does not set reads the same field after the group is applied. */
  lemma {:induction false} GroupAppliedLookupOthers(m: Message, g: Group, other: string)
    requires GroupApplied(m, g).Success?
    requires NoExtField(g) && other != ExtName && !HasFieldName(g, other)
    ensures Lookup(GroupApplied(m, g).value, other) == Lookup(m, other)
    decreases |g|
  {
    if g != [] {
      var m1 := Patched(m, g[0].0, g[0].1).value;
      PatchedLookupOthers(m, g[0].0, g[0].1, other);
      assert forall j :: 0 <= j < |g[1..]| ==> g[1..][j] == g[j + 1];
      GroupAppliedLookupOthers(m1, g[1..], other);
    }
  }

  /**
   * Read-back of a group: when its field names are distinct and none is
   * `ext`, each field reads back with its value applied (appended to a
   * repeated field, replacing a singular one).
   */
  lemma {:induction false} GroupAppliedReadBack(m: Message, g: Group, k: nat)
    requires GroupApplied(m, g).Success?
    requires DistinctFieldNames(g) && NoExtField(g)
    requires k < |g|
    ensures Lookup(m, g[k].0).Some?
    ensures Lookup(GroupApplied(m, g).value, g[k].0) == Some(Assigned(Lookup(m, g[k].0).value, g[k].1))
    decreases |g|
  {
    var m1 := Patched(m, g[0].0, g[0].1).value;
    var rest := g[1..];
    assert forall j :: 0 <= j < |rest| ==> rest[j] == g[j + 1];
    if k == 0 {
      PatchedReadBack(m, g[0].0, g[0].1);
      GroupAppliedLookupOthers(m1, rest, g[0].0);
    } else {
      GroupAppliedReadBack(m1, rest, k - 1);
      PatchedLookupOthers(m, g[0].0, g[0].1, g[k].0);
    }
  }

  // ---------------------------------------------------------------------------
  // Walking the nodes

  function Names(nodes: seq<Node>): set<string> {
    set i | 0 <= i < |nodes| :: nodes[i].name
  }

  /** Node i is the first node in configuration order with its name. */
  ghost predicate FirstNamed(nodes: seq<Node>, i: int) {
    0 <= i < |nodes| && forall j :: 0 <= j < i ==> nodes[j].name != nodes[i].name
  }

  /** Node i receives a group: it is the first of its name and a group is pending for it. */
  ghost predicate Receives(nodes: seq<Node>, pending: map<string, Group>, i: int) {
    FirstNamed(nodes, i) && nodes[i].name in pending
  }

  /** Every node that receives a group has options and the group applies to them. */
  ghost predicate Patchable(nodes: seq<Node>, pending: map<string, Group>) {
    forall i :: Receives(nodes, pending, i) ==>
      nodes[i].options.Some? &&
      GroupApplied(nodes[i].options.value, pending[nodes[i].name]).Success?
  }

  /** Node i as the walk leaves it: patched when it receives a group that applies. */
  ghost function PatchedNode(nodes: seq<Node>, pending: map<string, Group>, i: int): Node
    requires 0 <= i < |nodes|
  {
    if Receives(nodes, pending, i) && nodes[i].options.Some? &&
       GroupApplied(nodes[i].options.value, pending[nodes[i].name]).Success?
    then nodes[i].(options := Some(GroupApplied(nodes[i].options.value, pending[nodes[i].name]).value))
    else nodes[i]
  }

  function Prepend(n: Node, r: Result<seq<Node>, Error>): Result<seq<Node>, Error> {
    match r
    case Success(rest) => Success([n] + rest)
    case Failure(e) => Failure(e)
  }

  /**
   * The node walk (solution_base.cc:206-223) as a specification: each node in
   * order; a node whose name has a pending group must have options, gets the
   * group applied and the group is erased; groups left over at the end fail.
   */
  function Walk(nodes: seq<Node>, pending: map<string, Group>): Result<seq<Node>, Error>
    decreases |nodes|
  {
    if nodes == [] then
      if pending == map[] then Success([]) else Failure(NoSuchNodes)
    else
      var n := nodes[0];
      if n.name !in pending then
        Prepend(n, Walk(nodes[1..], pending))
      else if n.options.None? then
        Failure(NodeMissingOptions)
      else
        match GroupApplied(n.options.value, pending[n.name])
        case Failure(e) => Failure(e)
        case Success(o) => Prepend(n.(options := Some(o)), Walk(nodes[1..], pending - {n.name}))
  }

  /** What is still pending after the first node has been visited. */
  function PendingAfterHead(nodes: seq<Node>, pending: map<string, Group>): map<string, Group>
    requires |nodes| > 0
  {
    if nodes[0].name in pending then pending - {nodes[0].name} else pending
  }

  /** Receiving a group in the tail after the head is the same as receiving it in the whole list. */
  lemma ReceivesStep(nodes: seq<Node>, pending: map<string, Group>, i: int)
    requires 0 < i < |nodes|
    ensures Receives(nodes, pending, i) <==> Receives(nodes[1..], PendingAfterHead(nodes, pending), i - 1)
    ensures Receives(nodes, pending, i) ==>
      pending[nodes[i].name] == PendingAfterHead(nodes, pending)[nodes[i].name]
  {
    var rest := nodes[1..];
    assert rest[i - 1] == nodes[i];
    if nodes[i].name != nodes[0].name {
      assert FirstNamed(nodes, i) <==> FirstNamed(rest, i - 1) by {
        if FirstNamed(rest, i - 1) {
          forall j | 0 <= j < i ensures nodes[j].name != nodes[i].name {
            if j > 0 { assert rest[j - 1] == nodes[j]; }
          }
        }
        if FirstNamed(nodes, i) {
          forall j | 0 <= j < i - 1 ensures rest[j].name != rest[i - 1].name {
            assert rest[j] == nodes[j + 1];
          }
        }
      }
    } else {
      assert !FirstNamed(nodes, i);
    }
  }

  lemma PatchableStep(nodes: seq<Node>, pending: map<string, Group>)
    requires |nodes| > 0
    ensures Patchable(nodes, pending) <==>
      (nodes[0].name in pending ==>
        nodes[0].options.Some? && GroupApplied(nodes[0].options.value, pending[nodes[0].name]).Success?) &&
      Patchable(nodes[1..], PendingAfterHead(nodes, pending))
  {
    var rest, pending' := nodes[1..], PendingAfterHead(nodes, pending);
    assert Receives(nodes, pending, 0) <==> nodes[0].name in pending;
    if Patchable(nodes, pending) {
      forall k | Receives(rest, pending', k)
        ensures rest[k].options.Some? && GroupApplied(rest[k].options.value, pending'[rest[k].name]).Success?
      {
        ReceivesStep(nodes, pending, k + 1);
        assert rest[k] == nodes[k + 1];
      }
    }
    if (nodes[0].name in pending ==>
        nodes[0].options.Some? && GroupApplied(nodes[0].options.value, pending[nodes[0].name]).Success?) &&
       Patchable(rest, pending') {
      forall i | Receives(nodes, pending, i)
        ensures nodes[i].options.Some? && GroupApplied(nodes[i].options.value, pending[nodes[i].name]).Success?
      {
        if i > 0 {
          ReceivesStep(nodes, pending, i);
          assert rest[i - 1] == nodes[i];
        }
      }
    }
  }

  lemma NamesStep(nodes: seq<Node>)
    requires |nodes| > 0
    ensures Names(nodes) == {nodes[0].name} + Names(nodes[1..])
  {
    var rest := nodes[1..];
    forall x | x in Names(nodes) ensures x in {nodes[0].name} + Names(rest) {
      var i :| 0 <= i < |nodes| && nodes[i].name == x;
      if i > 0 { assert rest[i - 1] == nodes[i]; }
    }
    forall x | x in Names(rest) ensures x in Names(nodes) {
      var i :| 0 <= i < |rest| && rest[i].name == x;
      assert nodes[i + 1] == rest[i];
    }
  }

  /**
   * The walk succeeds exactly when every group names some node and the first
   * node of each such name has options to which its group applies.
   */
  lemma {:induction false} WalkSucceedsIff(nodes: seq<Node>, pending: map<string, Group>)
    ensures Walk(nodes, pending).Success? <==>
      pending.Keys <= Names(nodes) && Patchable(nodes, pending)
    decreases |nodes|
  {
    if nodes != [] {
      var pending' := PendingAfterHead(nodes, pending);
      WalkSucceedsIff(nodes[1..], pending');
      PatchableStep(nodes, pending);
      NamesStep(nodes);
      assert pending.Keys <= Names(nodes) <==> pending'.Keys <= Names(nodes[1..]);
    }
  }

  /**
   * A successful walk keeps the node list's length, patches exactly the first
   * node with each pending name and leaves every other node as it was.
   */
  lemma {:induction false} WalkPatchesFirstNamed(nodes: seq<Node>, pending: map<string, Group>)
    requires Walk(nodes, pending).Success?
    ensures |Walk(nodes, pending).value| == |nodes|
    ensures forall i :: 0 <= i < |nodes| ==> Walk(nodes, pending).value[i] == PatchedNode(nodes, pending, i)
    decreases |nodes|
  {
    if nodes != [] {
      var rest, pending' := nodes[1..], PendingAfterHead(nodes, pending);
      WalkPatchesFirstNamed(rest, pending');
      var out := Walk(nodes, pending).value;
      var outRest := Walk(rest, pending').value;
      assert out[1..] == outRest;
      assert out[0] == PatchedNode(nodes, pending, 0);
      forall i | 0 < i < |nodes| ensures out[i] == PatchedNode(nodes, pending, i) {
        ReceivesStep(nodes, pending, i);
        assert rest[i - 1] == nodes[i];
        assert out[i] == outRest[i - 1];
      }
    }
  }

  /**
   * Read-back of the walk: in the first node with a pending name, each field
   * of that name's group (distinct names, none `ext`) reads back with its
   * value applied to the node's options.
   */
  lemma WalkReadBack(nodes: seq<Node>, pending: map<string, Group>, i: nat, k: nat)
    requires Walk(nodes, pending).Success?
    requires Receives(nodes, pending, i)
    requires DistinctFieldNames(pending[nodes[i].name]) && NoExtField(pending[nodes[i].name])
    requires k < |pending[nodes[i].name]|
    ensures i < |Walk(nodes, pending).value| && nodes[i].options.Some?
    ensures Walk(nodes, pending).value[i].options.Some?
    ensures
      var g := pending[nodes[i].name];
      Lookup(nodes[i].options.value, g[k].0).Some? &&
      Lookup(Walk(nodes, pending).value[i].options.value, g[k].0) ==
        Some(Assigned(Lookup(nodes[i].options.value, g[k].0).value, g[k].1))
  {
    WalkSucceedsIff(nodes, pending);
    WalkPatchesFirstNamed(nodes, pending);
    GroupAppliedReadBack(nodes[i].options.value, pending[nodes[i].name], k);
  }

  /**
   * When every node that receives a group takes it but some group names no
   * node, the walk fails with "No such node(s) exists.".
   */
  lemma {:induction false} WalkNoSuchNode(nodes: seq<Node>, pending: map<string, Group>)
    requires Patchable(nodes, pending)
    requires !(pending.Keys <= Names(nodes))
    ensures Walk(nodes, pending) == Failure(NoSuchNodes)
    decreases |nodes|
  {
    if nodes != [] {
      PatchableStep(nodes, pending);
      NamesStep(nodes);
      WalkNoSuchNode(nodes[1..], PendingAfterHead(nodes, pending));
    }
  }

  /**
   * When the first node that receives a group has no options, and every
   * earlier receiving node takes its group, the walk fails with
   * "Node is missing options.".
   */
  lemma {:induction false} WalkMissingOptions(nodes: seq<Node>, pending: map<string, Group>, i: nat)
    requires Receives(nodes, pending, i) && nodes[i].options.None?
    requires Patchable(nodes[..i], pending)
    ensures Walk(nodes, pending) == Failure(NodeMissingOptions)
    decreases i
  {
    if i > 0 {
      var rest, pending' := nodes[1..], PendingAfterHead(nodes, pending);
      assert nodes[..i][0] == nodes[0];
      PatchableStep(nodes[..i], pending);
      assert nodes[..i][1..] == rest[..i - 1];
      ReceivesStep(nodes, pending, i);
      assert rest[i - 1] == nodes[i];
      WalkMissingOptions(rest, pending', i - 1);
    }
  }

  /** A walk's result with the nodes already patched glued in front. */
  function Glue(prefix: seq<Node>, r: Result<seq<Node>, Error>): Result<seq<Node>, Error> {
    match r
    case Success(rest) => Success(prefix + rest)
    case Failure(e) => Failure(e)
  }

  lemma GluePrepend(prefix: seq<Node>, n: Node, r: Result<seq<Node>, Error>)
    ensures Glue(prefix, Prepend(n, r)) == Glue(prefix + [n], r)
  {
    if r.Success? {
      assert prefix + ([n] + r.value) == (prefix + [n]) + r.value;
    }
  }

  /** The node walk of Init (solution_base.cc:206-223), patching the node list in place. */
  method PatchNodes(nodes: seq<Node>, groups: map<string, Group>) returns (r: Result<seq<Node>, Error>)
    ensures r == Walk(nodes, groups)
  {
    var patched := nodes;
    var pending := groups;
    var i := 0;
    assert patched[..0] == [] && nodes[0..] == nodes;
    assert Glue([], Walk(nodes, groups)) == Walk(nodes, groups) by {
      if Walk(nodes, groups).Success? {
        assert [] + Walk(nodes, groups).value == Walk(nodes, groups).value;
      }
    }
    while i < |nodes|
      invariant 0 <= i <= |nodes| && |patched| == |nodes|
      invariant Walk(nodes, groups) == Glue(patched[..i], Walk(nodes[i..], pending))
    {
      var node := nodes[i];
      ghost var prefix := patched[..i];
      assert nodes[i..][0] == node && nodes[i..][1..] == nodes[i + 1..];
      if node.name in pending {
        if node.options.None? {
          return Failure(NodeMissingOptions);
        }
        var o := ApplyGroup(node.options.value, pending[node.name]);
        if o.Failure? {
          return Failure(o.error);
        }
        GluePrepend(prefix, node.(options := Some(o.value)), Walk(nodes[i + 1..], pending - {node.name}));
        patched := patched[i := node.(options := Some(o.value))];
        pending := pending - {node.name};
      } else {
        GluePrepend(prefix, node, Walk(nodes[i + 1..], pending));
        patched := patched[i := node];
      }
      assert patched[..i + 1] == prefix + [patched[i]];
      i := i + 1;
    }
    assert patched[..i] == patched && nodes[i..] == [];
    if pending != map[] {
      return Failure(NoSuchNodes);
    }
    assert patched + [] == patched;
    r := Success(patched);
  }

  /**
   * The option-override part of Init: group the keys, then walk the nodes.
   * `groups` is the grouping the unspecified iteration order produced.
   */
  method ApplyOverrides(nodes: seq<Node>, options: map<string, AnyValue>)
    returns (r: Result<seq<Node>, Error>, ghost groups: map<string, Group>)
    ensures (exists key :: key in options && '.' !in key) ==> r == Failure(AtOutOfRange)
    ensures (forall key :: key in options ==> '.' in key) ==>
      GroupsOf(options, groups) && r == Walk(nodes, groups)
  {
    groups := map[];
    var grouped := GroupOverrides(options);
    if grouped.Failure? {
      return Failure(grouped.error), groups;
    }
    groups := grouped.value;
    r := PatchNodes(nodes, grouped.value);
  }

  /**
   * Read-back of an override key "node.field": after a successful walk over a
   * grouping of the overrides, the first node of that name reads `field` back
   * with a value some key for (node, field) carried, which is the key's own
   * value when no other key splits to the same pair. No override may set a
   * field named `ext`.
   */
  lemma OverrideReadBack(nodes: seq<Node>, options: map<string, AnyValue>, groups: map<string, Group>,
                         key: string, i: nat)
    requires GroupsOf(options, groups) && Walk(nodes, groups).Success?
    requires forall k :: k in options && SplitKey(k).Success? ==> SplitKey(k).value.1 != ExtName
    requires key in options && SplitKey(key).Success?
    requires FirstNamed(nodes, i) && nodes[i].name == SplitKey(key).value.0
    ensures i < |Walk(nodes, groups).value| && nodes[i].options.Some?
    ensures Walk(nodes, groups).value[i].options.Some?
    ensures
      var field := SplitKey(key).value.1;
      Lookup(nodes[i].options.value, field).Some? &&
      exists v :: FromSomeKey(options, nodes[i].name, field, v) &&
        Lookup(Walk(nodes, groups).value[i].options.value, field) ==
          Some(Assigned(Lookup(nodes[i].options.value, field).value, v))
    ensures (forall k :: k in options && SplitKey(k) == SplitKey(key) ==> k == key) ==>
      var field := SplitKey(key).value.1;
      Lookup(Walk(nodes, groups).value[i].options.value, field) ==
        Some(Assigned(Lookup(nodes[i].options.value, field).value, options[key]))
  {
    var node, field := SplitKey(key).value.0, SplitKey(key).value.1;
    assert KeyGrouped(groups, key);
    var g := groups[node];
    var j :| 0 <= j < |g| && g[j].0 == field;
    assert GroupFrom(options, node, g);
    assert NoExtField(g) by {
      forall t | 0 <= t < |g| ensures g[t].0 != ExtName {
        assert FromSomeKey(options, node, g[t].0, g[t].1);
      }
    }
    WalkReadBack(nodes, groups, i, j);
    assert FromSomeKey(options, node, field, g[j].1);
  }
}
