/**
 * The type-erased carrier `Any` (mediapipe-solutions/any.h) and the parts of
 * MediaPipe's packet it relies on. A `std::shared_ptr` to a holder becomes a
 * nullable reference to a `Holder` object; sharing a holder is reference
 * equality, and a holder is never changed after it is built.
 */
module Carrier {
  import opened Widths
  import opened Util
  import opened Formats

  /** The run-time type identity a holder records (the `T` of `Holder<T>`). */
  datatype TypeTag =
    | IntType
    | ImageFrameType
    | LandmarkListsType
    | ClassificationListsType
    | OtherType(name: string)

  /**
   * The payloads that cross the facade in this core: `int`, an ImageFrame,
   * `std::vector<NormalizedLandmarkList>`, `std::vector<ClassificationList>`,
   * and any other C++ type as an opaque value named by its type.
   */
  datatype Payload =
    | IntPayload(i: int32)
    | ImagePayload(image: ImageFrame)
    | LandmarkListsPayload(landmarkLists: seq<NormalizedLandmarkList>)
    | ClassificationListsPayload(classificationLists: seq<ClassificationList>)
    | OtherPayload(typeName: string, content: seq<bv8>)

  function TagOf(p: Payload): TypeTag {
    match p
    case IntPayload(_) => IntType
    case ImagePayload(_) => ImageFrameType
    case LandmarkListsPayload(_) => LandmarkListsType
    case ClassificationListsPayload(_) => ClassificationListsType
    case OtherPayload(name, _) => OtherType(name)
  }

  /** packet_internal::Holder<T>: an immutable, type-tagged payload. */
  class Holder {
    const payload: Payload

    constructor (payload: Payload)
      ensures this.payload == payload
    {
      this.payload := payload;
    }

    function Tag(): TypeTag {
      TagOf(payload)
    }
  }

  /** mediapipe::Packet: a holder reference, possibly null, and a timestamp. */
  datatype Packet = Packet(holder: Holder?, timestamp: Timestamp) {
    predicate IsEmpty() { holder == null }
  }

  /** `mediapipe::Packet()`: no holder, unset timestamp. */
  const EmptyPacket: Packet := Packet(null, Unset)

  class Any {
    var holder: Holder?

    /** The default constructor: an empty carrier. */
    constructor ()
      ensures holder == null
    {
      holder := null;
    }

    /**
     * The move constructor: the new carrier takes the source's holder and the
     * source is left empty. (The copy constructor is deleted.)
     */
    constructor Move(other: Any)
      modifies other
      ensures holder == old(other.holder)
      ensures other.holder == null
    {
      holder := other.holder;
      new;
      other.holder := null;
    }

    /** Construction from a `const Packet &`: shares the packet's holder. */
    constructor FromPacket(p: Packet)
      ensures holder == p.holder
    {
      holder := p.holder;
    }

    /**
     * Construction from a value (`const T &`, `T &` or `T &&`): a fresh holder
     * with a copy of, or the moved-in, value; nothing is shared with the source.
     */
    constructor FromValue(v: Payload)
      ensures holder != null && fresh(holder)
      ensures holder.payload == v
    {
      holder := new Holder(v);
    }

    /**
     * Construction from a `Packet &&`: the carrier takes the packet's holder
     * over, and the packet is left without one (its timestamp stays).
     */
    static method TakePacket(p: Packet) returns (a: Any, rest: Packet)
      ensures fresh(a)
      ensures a.holder == p.holder
      ensures rest == p.(holder := null)
    {
      a := new Any.FromPacket(p);
      rest := p.(holder := null);
    }

    /** Adopt(unique_ptr<T>): the adopted object goes into a fresh holder of its type. */
    static method Adopt(v: Payload) returns (a: Any)
      ensures fresh(a) && a.holder != null && fresh(a.holder)
      ensures a.holder.payload == v && a.holder.Tag() == TagOf(v)
    {
      a := new Any.FromValue(v);
    }

    /** `At(ts) const &`: a packet sharing this carrier's holder; the carrier is unchanged. */
    method At(ts: Timestamp) returns (p: Packet)
      ensures p.holder == holder && p.timestamp == ts
    {
      p := Packet(holder, ts);
    }

    /** `At(ts) &&`: the holder moves into the packet and the carrier is left empty. */
    method MoveAt(ts: Timestamp) returns (p: Packet)
      modifies this
      ensures p.holder == old(holder) && p.timestamp == ts
      ensures holder == null
    {
      p := Packet(holder, ts);
      holder := null;
    }

    /** `operator Packet() const &`: At with the default (unset) timestamp. */
    method ToPacket() returns (p: Packet)
      ensures p.holder == holder && p.timestamp == Unset
    {
      p := At(Unset);
    }

    /** `operator Packet() &&`: MoveAt with the default (unset) timestamp. */
    method MoveToPacket() returns (p: Packet)
      modifies this
      ensures p.holder == old(holder) && p.timestamp == Unset
      ensures holder == null
    {
      p := MoveAt(Unset);
    }

    /**
     * `Get<T>()`: the payload of the holder. The source checks nothing: a
     * null holder or a payload of another type is undefined behaviour, which
     * is this precondition.
     */
    function Get(t: TypeTag): (v: Payload)
      reads this
      requires holder != null && holder.Tag() == t
      ensures TagOf(v) == t
      ensures v == holder.payload
    {
      holder.payload
    }
  }

  /** Adopting a value and reading it back as its own type yields the value. */
  method AdoptThenGet(v: Payload) returns (r: Payload)
    ensures r == v
  {
    var a := Any.Adopt(v);
    r := a.Get(TagOf(v));
  }

  /**
   * A carrier built from a packet by move and another built from the same
   * packet by copy share one holder, so both read back the same payload.
   */
  method ShareThroughPacket(p: Packet) returns (moved: Any, copied: Any)
    requires p.holder != null
    ensures moved.holder == copied.holder == p.holder
    ensures moved.Get(p.holder.Tag()) == copied.Get(p.holder.Tag()) == p.holder.payload
  {
    copied := new Any.FromPacket(p);
    var rest;
    moved, rest := Any.TakePacket(p);
  }
}
