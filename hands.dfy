/**
 * The hand-tracking solution (mediapipe-solutions/hands/hands.h and hands.cc):
 * the landmark and handedness enumerations, the landmark list accessor by
 * name, the solution's construction arguments and the pairing of the two
 * output lists into a map keyed by handedness.
 */
module Hands {
  import opened Wrappers
  import opened Widths
  import opened Util
  import opened Formats
  import opened Carrier
  import opened ProtoOptions
  import opened OptionOverrides
  import opened SolutionBase

  // ---------------------------------------------------------------------------
  // Enumerations (hands.h:25-52)

  /** The 21 hand landmarks, WRIST = 0 through PINKY_TIP = 20. */
  datatype HandLandmark =
    | Wrist
    | ThumbCmc | ThumbMcp | ThumbIp | ThumbTip
    | IndexFingerMcp | IndexFingerPip | IndexFingerDip | IndexFingerTip
    | MiddleFingerMcp | MiddleFingerPip | MiddleFingerDip | MiddleFingerTip
    | RingFingerMcp | RingFingerPip | RingFingerDip | RingFingerTip
    | PinkyMcp | PinkyPip | PinkyDip | PinkyTip

  /** The enumerators in the order of their values. */
  const HandLandmarks: seq<HandLandmark> := [
    Wrist,
    ThumbCmc, ThumbMcp, ThumbIp, ThumbTip,
    IndexFingerMcp, IndexFingerPip, IndexFingerDip, IndexFingerTip,
    MiddleFingerMcp, MiddleFingerPip, MiddleFingerDip, MiddleFingerTip,
    RingFingerMcp, RingFingerPip, RingFingerDip, RingFingerTip,
    PinkyMcp, PinkyPip, PinkyDip, PinkyTip
  ]

  /** `int(handLandmark)`: the enumerator's value, its position among the 21. */
  function LandmarkIndex(h: HandLandmark): (i: nat)
    ensures i < |HandLandmarks| == 21
    ensures HandLandmarks[i] == h
  {
    match h
    case Wrist => 0
    case ThumbCmc => 1
    case ThumbMcp => 2
    case ThumbIp => 3
    case ThumbTip => 4
    case IndexFingerMcp => 5
    case IndexFingerPip => 6
    case IndexFingerDip => 7
    case IndexFingerTip => 8
    case MiddleFingerMcp => 9
    case MiddleFingerPip => 10
    case MiddleFingerDip => 11
    case MiddleFingerTip => 12
    case RingFingerMcp => 13
    case RingFingerPip => 14
    case RingFingerDip => 15
    case RingFingerTip => 16
    case PinkyMcp => 17
    case PinkyPip => 18
    case PinkyDip => 19
    case PinkyTip => 20
  }

  /** The values are numbered consecutively: every value 0..20 names exactly one landmark. */
  lemma LandmarkIndexRoundTrip(i: nat)
    requires i < 21
    ensures LandmarkIndex(HandLandmarks[i]) == i
  {
  }

  /**
   * A handedness as the result map stores it: `Handedness(index)` converts
   * any classification index, so values other than LEFT and RIGHT occur.
   */
  datatype Handedness = Handedness(value: int32)

  const Left: Handedness := Handedness(0)
  const Right: Handedness := Handedness(1)

  // ---------------------------------------------------------------------------
  // HandNormalizedLandmarkList (hands.h:54-84)

  /** A NormalizedLandmarkList that can also be indexed by HandLandmark. */
  datatype HandLandmarkList = HandLandmarkList(landmark: seq<NormalizedLandmark>)

  /** Both constructors, by copy and by move: the same landmarks as the source list. */
  function FromLandmarkList(other: NormalizedLandmarkList): (h: HandLandmarkList)
    ensures |h.landmark| == |other.landmark|
    ensures forall i :: 0 <= i < |other.landmark| ==> h.landmark[i] == other.landmark[i]
  {
    HandLandmarkList(other.landmark)
  }

  /**
   * The inherited `landmark(int)` accessor. Protobuf leaves an index outside
   * the list undefined, which is this precondition.
   */
  function LandmarkAt(list: HandLandmarkList, i: int): NormalizedLandmark
    requires 0 <= i < |list.landmark|
  {
    list.landmark[i]
  }

  /** `landmark(HandLandmark)`: the landmark at the enumerator's value. */
  function Landmark(list: HandLandmarkList, h: HandLandmark): (lm: NormalizedLandmark)
    requires LandmarkIndex(h) < |list.landmark|
    ensures lm == LandmarkAt(list, LandmarkIndex(h))
  {
    LandmarkAt(list, LandmarkIndex(h))
  }

  /**
   * For a list of 21 landmarks, looking a landmark up by name agrees with the
   * position of that name in the enumeration, for every name.
   */
  lemma LandmarkByName(other: NormalizedLandmarkList)
    requires |other.landmark| == 21
    ensures forall i :: 0 <= i < 21 ==>
      Landmark(FromLandmarkList(other), HandLandmarks[i]) == other.landmark[i]
  {
    forall i | 0 <= i < 21
      ensures Landmark(FromLandmarkList(other), HandLandmarks[i]) == other.landmark[i]
    {
      LandmarkIndexRoundTrip(i);
    }
  }

  // ---------------------------------------------------------------------------
  // Pairing landmarks with handedness (hands.cc:121-134)

  const MatchFailure: Error := LogicError("Failed to match landmarks with hand.")

  /**
   * `at(0)` on an empty repeated protobuf field: the bounds check is a
   * protobuf usage check, which aborts the process instead of raising.
   */
  const EmptyClassification: Error := FatalError("at(0) on an empty repeated field")

  /** The first classification's index of a handedness list, when it has one. */
  function HandOf(c: ClassificationList): Option<Handedness> {
    if |c.classification| == 0 then None else Some(Handedness(c.classification[0].index))
  }

  /**
   * The first `n` steps of the pairing loop: entry i is emplaced under the
   * hand of the i-th handedness list, unless that hand is already present;
   * a handedness list without classifications fails the usage check of
   * `at(0)`.
   */
  function Emplaced(landmarks: seq<NormalizedLandmarkList>, handedness: seq<ClassificationList>, n: nat)
    : Result<map<Handedness, HandLandmarkList>, Error>
    requires n <= |landmarks| && n <= |handedness|
  {
    if n == 0 then Success(map[])
    else
      match Emplaced(landmarks, handedness, n - 1)
      case Failure(e) => Failure(e)
      case Success(m) =>
        match HandOf(handedness[n - 1])
        case None => Failure(EmptyClassification)
        case Some(hand) =>
          Success(if hand in m then m else m[hand := FromLandmarkList(landmarks[n - 1])])
  }

  /** The pairing of the two output lists. */
  function Paired(landmarks: seq<NormalizedLandmarkList>, handedness: seq<ClassificationList>)
    : Result<map<Handedness, HandLandmarkList>, Error>
  {
    if |landmarks| != |handedness| then Failure(MatchFailure)
    else Emplaced(landmarks, handedness, |handedness|)
  }

  /** Entry i is the first among the first n whose handedness list names its hand. */
  ghost predicate FirstOfHand(handedness: seq<ClassificationList>, i: int) {
    0 <= i < |handedness| && HandOf(handedness[i]).Some? &&
    forall j :: 0 <= j < i ==> HandOf(handedness[j]) != HandOf(handedness[i])
  }

  /** The first n steps fail, in the check of `at(0)`, exactly when one of the first n handedness lists is empty. */
  lemma {:induction false} EmplacedFails(landmarks: seq<NormalizedLandmarkList>, handedness: seq<ClassificationList>, n: nat)
    requires n <= |landmarks| && n <= |handedness|
    ensures Emplaced(landmarks, handedness, n).Failure? <==>
      exists i :: 0 <= i < n && HandOf(handedness[i]).None?
    ensures Emplaced(landmarks, handedness, n).Failure? ==>
      Emplaced(landmarks, handedness, n).error == EmptyClassification
  {
    if n > 0 {
      EmplacedFails(landmarks, handedness, n - 1);
      if HandOf(handedness[n - 1]).None? {
        assert exists i :: 0 <= i < n && HandOf(handedness[i]).None?;
      }
    }
  }

  /** After n successful steps the keys are the hands named by the first n entries. */
  lemma {:induction false} EmplacedKeys(landmarks: seq<NormalizedLandmarkList>, handedness: seq<ClassificationList>, n: nat)
    requires n <= |landmarks| && n <= |handedness|
    requires Emplaced(landmarks, handedness, n).Success?
    ensures forall i :: 0 <= i < n ==>
      HandOf(handedness[i]).Some? && HandOf(handedness[i]).value in Emplaced(landmarks, handedness, n).value
    ensures forall hand :: hand in Emplaced(landmarks, handedness, n).value ==>
      exists i :: 0 <= i < n && HandOf(handedness[i]) == Some(hand)
  {
    if n > 0 {
      EmplacedKeys(landmarks, handedness, n - 1);
    }
  }

  /** After n successful steps at most n hands are kept. */
  lemma {:induction false} EmplacedSize(landmarks: seq<NormalizedLandmarkList>, handedness: seq<ClassificationList>, n: nat)
    requires n <= |landmarks| && n <= |handedness|
    requires Emplaced(landmarks, handedness, n).Success?
    ensures |Emplaced(landmarks, handedness, n).value| <= n
  {
    if n > 0 {
      EmplacedSize(landmarks, handedness, n - 1);
      var m0 := Emplaced(landmarks, handedness, n - 1).value;
      var m := Emplaced(landmarks, handedness, n).value;
      assert m.Keys == m0.Keys + {HandOf(handedness[n - 1]).value};
    }
  }

  /** After n successful steps the hand named by a first entry i holds that entry's landmarks. */
  lemma {:induction false} EmplacedFirstAt(landmarks: seq<NormalizedLandmarkList>, handedness: seq<ClassificationList>, n: nat, i: nat)
    requires n <= |landmarks| && n <= |handedness|
    requires Emplaced(landmarks, handedness, n).Success?
    requires i < n && FirstOfHand(handedness, i)
    ensures HandOf(handedness[i]).value in Emplaced(landmarks, handedness, n).value
    ensures Emplaced(landmarks, handedness, n).value[HandOf(handedness[i]).value] == FromLandmarkList(landmarks[i])
  {
    assert Emplaced(landmarks, handedness, n - 1).Success?;
    if i < n - 1 {
      EmplacedFirstAt(landmarks, handedness, n - 1, i);
    } else {
      EmplacedKeys(landmarks, handedness, n - 1);
    }
  }

  /** After n successful steps each hand holds the landmarks of the first entry naming it. */
  lemma EmplacedFirstWins(landmarks: seq<NormalizedLandmarkList>, handedness: seq<ClassificationList>, n: nat)
    requires n <= |landmarks| && n <= |handedness|
    requires Emplaced(landmarks, handedness, n).Success?
    ensures forall i :: 0 <= i < n && FirstOfHand(handedness, i) ==>
      var m := Emplaced(landmarks, handedness, n).value;
      HandOf(handedness[i]).value in m && m[HandOf(handedness[i]).value] == FromLandmarkList(landmarks[i])
  {
    forall i | 0 <= i < n && FirstOfHand(handedness, i)
      ensures HandOf(handedness[i]).value in Emplaced(landmarks, handedness, n).value
      ensures Emplaced(landmarks, handedness, n).value[HandOf(handedness[i]).value] == FromLandmarkList(landmarks[i])
    {
      EmplacedFirstAt(landmarks, handedness, n, i);
    }
  }

  /** Once a step fails, every later prefix fails with the same error. */
  lemma {:induction false} EmplacedStaysFailed(landmarks: seq<NormalizedLandmarkList>, handedness: seq<ClassificationList>, i: nat, n: nat)
    requires i <= n <= |landmarks| && n <= |handedness|
    requires Emplaced(landmarks, handedness, i).Failure?
    ensures Emplaced(landmarks, handedness, n) == Emplaced(landmarks, handedness, i)
    decreases n - i
  {
    if i < n {
      EmplacedStaysFailed(landmarks, handedness, i + 1, n);
    }
  }

  /**
   * The pairing fails with the match error exactly when the lists differ in
   * length, aborts in the check of `at(0)` exactly when they agree and some handedness list
   * is empty, and otherwise keeps, for each hand named, the landmarks of the
   * first entry naming it.
   */
  lemma PairedResult(landmarks: seq<NormalizedLandmarkList>, handedness: seq<ClassificationList>)
    ensures |landmarks| != |handedness| ==> Paired(landmarks, handedness) == Failure(MatchFailure)
    ensures |landmarks| == |handedness| ==>
      (Paired(landmarks, handedness) == Failure(EmptyClassification) <==>
        exists i :: 0 <= i < |handedness| && HandOf(handedness[i]).None?)
    ensures Paired(landmarks, handedness).Success? ==>
      var m := Paired(landmarks, handedness).value;
      && (forall i :: 0 <= i < |handedness| ==> HandOf(handedness[i]).Some? && HandOf(handedness[i]).value in m)
      && (forall hand :: hand in m ==> exists i :: 0 <= i < |handedness| && HandOf(handedness[i]) == Some(hand))
      && (forall i :: FirstOfHand(handedness, i) ==>
            m[HandOf(handedness[i]).value] == FromLandmarkList(landmarks[i]))
      && |m| <= |landmarks|
  {
    if |landmarks| == |handedness| {
      EmplacedFails(landmarks, handedness, |handedness|);
      if Paired(landmarks, handedness).Success? {
        EmplacedKeys(landmarks, handedness, |handedness|);
        EmplacedSize(landmarks, handedness, |handedness|);
        EmplacedFirstWins(landmarks, handedness, |handedness|);
      }
    }
  }

  /** The pairing loop of Hands::Process (hands.cc:125-133). */
  method PairHands(landmarks: seq<NormalizedLandmarkList>, handedness: seq<ClassificationList>)
    returns (r: Result<map<Handedness, HandLandmarkList>, Error>)
    ensures r == Paired(landmarks, handedness)
  {
    if |landmarks| != |handedness| {
      return Failure(MatchFailure);
    }
    var processed: map<Handedness, HandLandmarkList> := map[];
    var i := 0;
    while i < |handedness|
      invariant 0 <= i <= |handedness|
      invariant Emplaced(landmarks, handedness, i) == Success(processed)
    {
      if |handedness[i].classification| == 0 {
        EmplacedStaysFailed(landmarks, handedness, i + 1, |handedness|);
        return Failure(EmptyClassification);
      }
      var hand := Handedness(handedness[i].classification[0].index);
      if hand !in processed {
        processed := processed[hand := FromLandmarkList(landmarks[i])];
      }
      i := i + 1;
    }
    r := Success(processed);
  }

  // ---------------------------------------------------------------------------
  // The solution's construction arguments (hands.cc:30-35, 78-114)

  const InputVideo: string := "input_video"
  const LandmarksStream: string := "landmarks"
  const HandednessStream: string := "handedness"
  const NumHands: string := "num_hands"

  /** The expanded names of the two nodes whose thresholds are overridden. */
  const PalmDetectionNode: string :=
    "handlandmarktrackingcpu" + "__" + "palmdetectioncpu" + "__" + "TensorsToDetections" + "Calculator"
  const HandLandmarkNode: string :=
    "handlandmarktrackingcpu" + "__" + "handlandmarkcpu" + "__" + "ThresholdingCalculator"

  /** CreateSideInputs: one side input, `num_hands`, carrying the hand count. */
  method CreateSideInputs(maxNumHands: int32) returns (sideInputs: map<string, Any>)
    ensures sideInputs.Keys == {NumHands}
    ensures fresh(sideInputs[NumHands]) && sideInputs[NumHands].holder != null
    ensures sideInputs[NumHands].holder.payload == IntPayload(maxNumHands)
  {
    sideInputs := map[];
    var carrier := new Any.FromValue(IntPayload(maxNumHands));
    sideInputs := sideInputs[NumHands := carrier];
  }

  /** A packet sharing a carrier of the hand count, stamped `ts`. */
  predicate CountPacket(p: Packet, maxNumHands: int32, ts: Timestamp) {
    p.holder != null && p.holder.payload == IntPayload(maxNumHands) && p.timestamp == ts
  }

  /** The outputs the solution requests. */
  const HandsOutputs: seq<string> := [LandmarksStream, HandednessStream]

  /** The slots registered for the requested outputs. */
  lemma HandsSlots()
    ensures (map n | n in HandsOutputs :: EmptyPacket) == map[LandmarksStream := EmptyPacket, HandednessStream := EmptyPacket]
  {
    assert LandmarksStream != HandednessStream;
  }

  const PalmDetectionKey: string := PalmDetectionNode + "." + "min_score_thresh"
  const HandLandmarkKey: string := HandLandmarkNode + "." + "threshold"

  /** The two threshold overrides: a float and a double. */
  function HandsOverrides(minDetectionConfidence: bv32, minTrackingConfidence: bv64): (options: map<string, AnyValue>)
    ensures options.Keys == {PalmDetectionKey, HandLandmarkKey}
    ensures options[PalmDetectionKey] == FloatValue(minDetectionConfidence)
    ensures options[HandLandmarkKey] == DoubleValue(minTrackingConfidence)
  {
    map[PalmDetectionKey := FloatValue(minDetectionConfidence), HandLandmarkKey := DoubleValue(minTrackingConfidence)]
  }

  /** Each override key splits at its first dot into the node name and the field. */
  lemma HandsKeysSplit()
    ensures SplitKey(PalmDetectionKey) == Success((PalmDetectionNode, "min_score_thresh"))
    ensures SplitKey(HandLandmarkKey) == Success((HandLandmarkNode, "threshold"))
    ensures '.' in PalmDetectionKey && '.' in HandLandmarkKey
  {
    PalmDetectionKeySplit();
    HandLandmarkKeySplit();
  }

  lemma PalmDetectionKeySplit()
    ensures SplitKey(PalmDetectionKey) == Success((PalmDetectionNode, "min_score_thresh"))
  {
    SplitKeyOf(PalmDetectionNode, "min_score_thresh", "");
  }

  lemma HandLandmarkKeySplit()
    ensures SplitKey(HandLandmarkKey) == Success((HandLandmarkNode, "threshold"))
  {
    SplitKeyOf(HandLandmarkNode, "threshold", "");
  }

  /** The groups the two overrides form. */
  function HandsGroupsOf(minDetectionConfidence: bv32, minTrackingConfidence: bv64): map<string, Group> {
    map[PalmDetectionNode := [("min_score_thresh", FloatValue(minDetectionConfidence))],
        HandLandmarkNode := [("threshold", DoubleValue(minTrackingConfidence))]]
  }

  /**
   * The overrides group into exactly two groups of one field each: the
   * palm detector's `min_score_thresh` and the landmark thresholder's `threshold`.
   */
  lemma HandsGroups(minDetectionConfidence: bv32, minTrackingConfidence: bv64, groups: map<string, Group>)
    requires GroupsOf(HandsOverrides(minDetectionConfidence, minTrackingConfidence), groups)
    ensures groups == HandsGroupsOf(minDetectionConfidence, minTrackingConfidence)
  {
    HandsKeysSplit();
    assert |PalmDetectionNode| != |HandLandmarkNode|;
    TwoGroups(PalmDetectionKey, PalmDetectionNode, "min_score_thresh", FloatValue(minDetectionConfidence),
              HandLandmarkKey, HandLandmarkNode, "threshold", DoubleValue(minTrackingConfidence), groups);
  }

  /** Two keys naming different nodes group into one single-field group per node. */
  lemma TwoGroups(key1: string, node1: string, field1: string, v1: AnyValue,
                  key2: string, node2: string, field2: string, v2: AnyValue, groups: map<string, Group>)
    requires SplitKey(key1) == Success((node1, field1)) && SplitKey(key2) == Success((node2, field2))
    requires node1 != node2
    requires GroupsOf(map[key1 := v1, key2 := v2], groups)
    ensures groups == map[node1 := [(field1, v1)], node2 := [(field2, v2)]]
  {
    var options := map[key1 := v1, key2 := v2];
    assert key1 != key2;
    assert KeyGrouped(groups, key1) && KeyGrouped(groups, key2);
    forall node | node in groups ensures node == node1 || node == node2 {
      assert GroupFrom(options, node, groups[node]);
      assert FromSomeKey(options, node, groups[node][0].0, groups[node][0].1);
    }
    GroupOfOne(options, node1, field1, groups[node1], key1);
    GroupOfOne(options, node2, field2, groups[node2], key2);
  }

  /** A group for a node that only one key names holds exactly that key's field and value. */
  lemma GroupOfOne(options: map<string, AnyValue>, node: string, field: string, g: Group, key: string)
    requires key in options && SplitKey(key) == Success((node, field))
    requires forall k :: k in options && k != key ==> SplitKey(k).Success? && SplitKey(k).value.0 != node
    requires GroupFrom(options, node, g)
    ensures g == [(field, options[key])]
  {
    forall j | 0 <= j < |g| ensures g[j] == (field, options[key]) {
      assert FromSomeKey(options, node, g[j].0, g[j].1);
    }
    var names := set j | 0 <= j < |g| :: g[j].0;
    assert names == {field} by {
      assert g[0].0 in names;
    }
    DistinctNamesCount(g);
    assert g == [g[0]];
  }

  /** Distinct field names are as many as the entries. */
  lemma {:induction false} DistinctNamesCount(g: Group)
    requires DistinctFieldNames(g)
    ensures |set j | 0 <= j < |g| :: g[j].0| == |g|
  {
    if g != [] {
      var init := g[..|g| - 1];
      DistinctNamesCount(init);
      var s := set j | 0 <= j < |g| :: g[j].0;
      var t := set j | 0 <= j < |init| :: init[j].0;
      assert s == t + {g[|g| - 1].0} by {
        forall x | x in s ensures x in t + {g[|g| - 1].0} {
          var j :| 0 <= j < |g| && g[j].0 == x;
          if j < |g| - 1 { assert init[j].0 == x; }
        }
      }
      assert g[|g| - 1].0 !in t;
    }
  }

  // ---------------------------------------------------------------------------
  // The solution

  /** The output slots hold the payload types the hand-tracking graph produces. */
  ghost predicate WellTypedSlots(outputs: map<string, Packet>) {
    (LandmarksStream in outputs && !outputs[LandmarksStream].IsEmpty() ==>
      outputs[LandmarksStream].holder.Tag() == LandmarkListsType) &&
    (HandednessStream in outputs && !outputs[HandednessStream].IsEmpty() ==>
      outputs[HandednessStream].holder.Tag() == ClassificationListsType)
  }

  /** Both requested outputs have a packet waiting. */
  predicate BothFilled(outputs: map<string, Packet>) {
    LandmarksStream in outputs && !outputs[LandmarksStream].IsEmpty() &&
    HandednessStream in outputs && !outputs[HandednessStream].IsEmpty()
  }

  class Hands {
    const base: Solution

    constructor (base: Solution)
      ensures this.base == base
    {
      this.base := base;
    }

    /**
     * The constructor Hands(max_num_hands, min_detection_confidence,
     * min_tracking_confidence) (hands.cc:78-114): the base is built with the
     * `num_hands` side input, the two requested outputs and the two threshold
     * overrides. `validated` is the validated form of the graph text.
     */
    static method Create(maxNumHands: int32, minDetectionConfidence: bv32, minTrackingConfidence: bv64,
                         validated: seq<Node>, elapsed: nat, startStatus: Status)
      returns (h: Hands, r: Outcome<Error>)
      ensures fresh(h) && fresh(h.base) && h.base.fed == []
      ensures Walk(validated, HandsGroupsOf(minDetectionConfidence, minTrackingConfidence)).Failure? ==>
        r == Fail(Walk(validated, HandsGroupsOf(minDetectionConfidence, minTrackingConfidence)).error)
      ensures Walk(validated, HandsGroupsOf(minDetectionConfidence, minTrackingConfidence)).Success? ==>
        r == ThrowIfNotOk(startStatus)
      ensures r.Pass? ==>
        && h.base.config == Walk(validated, HandsGroupsOf(minDetectionConfidence, minTrackingConfidence)).value
        && h.base.outputs == map[LandmarksStream := EmptyPacket, HandednessStream := EmptyPacket]
        && h.base.sidePackets.Keys == {NumHands}
        && CountPacket(h.base.sidePackets[NumHands], maxNumHands, Micros(elapsed))
    {
      var sideInputs := CreateSideInputs(maxNumHands);
      ghost var held := Holders(sideInputs);
      var options := HandsOverrides(minDetectionConfidence, minTrackingConfidence);
      HandsKeysSplit();
      assert DistinctCarriers(sideInputs);
      var base;
      ghost var groups;
      base, r, groups := SolutionBase.Create(validated, sideInputs, HandsOutputs, options, elapsed, startStatus);
      HandsGroups(minDetectionConfidence, minTrackingConfidence, groups);
      HandsSlots();
      h := new Hands(base);
    }

    /**
     * Hands::Process (hands.cc:116-137): the image is adopted into a carrier
     * and fed on `input_video`; when both outputs came back, the two lists are
     * paired, otherwise the result is empty.
     */
    method Process(image: ImageFrame, elapsed: nat, feedStatus: string -> Status, idleStatus: Status)
      returns (r: Result<map<Handedness, HandLandmarkList>, Error>)
      requires WellTypedSlots(base.outputs)
      modifies base
      ensures base.config == old(base.config) && base.sidePackets == old(base.sidePackets)
      ensures !feedStatus(InputVideo).IsOk() ==>
        r == Failure(ThrowError(feedStatus(InputVideo))) && base.fed == old(base.fed) &&
        base.outputs == old(base.outputs)
      ensures feedStatus(InputVideo).IsOk() ==>
        && |base.fed| == |old(base.fed)| + 1
        && base.fed[..|old(base.fed)|] == old(base.fed)
        && base.fed[|old(base.fed)|].0 == InputVideo
        && base.fed[|old(base.fed)|].1.holder != null
        && base.fed[|old(base.fed)|].1.holder.payload == ImagePayload(image)
        && base.fed[|old(base.fed)|].1.timestamp == Micros(elapsed)
      ensures feedStatus(InputVideo).IsOk() && !idleStatus.IsOk() ==>
        r == Failure(ThrowError(idleStatus)) && base.outputs == old(base.outputs)
      ensures feedStatus(InputVideo).IsOk() && idleStatus.IsOk() ==>
        && base.outputs == Drained(old(base.outputs))
        && (!BothFilled(old(base.outputs)) ==> r == Success(map[]))
        && (BothFilled(old(base.outputs)) ==>
              r == Paired(old(base.outputs)[LandmarksStream].holder.payload.landmarkLists,
                          old(base.outputs)[HandednessStream].holder.payload.classificationLists))
    {
      var input := Any.Adopt(ImagePayload(image));
      var output := base.ProcessSingle(InputVideo, input, elapsed, feedStatus, idleStatus);
      if output.Failure? {
        return Failure(output.error);
      }
      var outputs := output.value;
      if LandmarksStream in outputs && HandednessStream in outputs {
        var landmarkLists := outputs[LandmarksStream].Get(LandmarkListsType).landmarkLists;
        var handednessLists := outputs[HandednessStream].Get(ClassificationListsType).classificationLists;
        r := PairHands(landmarkLists, handednessLists);
      } else {
        r := Success(map[]);
      }
    }
  }
}
