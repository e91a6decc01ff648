/**
 * The MediaPipe data formats that cross the facade in this core. Their
 * contents are opaque here: floating-point coordinates and scores are kept as
 * bit patterns and an image frame only has an identity.
 */
module Formats {
  import opened Widths

  /** A mediapipe::ImageFrame; its pixels are not modelled. */
  datatype ImageFrame = ImageFrame(id: nat)

  /** A mediapipe::NormalizedLandmark; x, y and z are float bit patterns. */
  datatype NormalizedLandmark = NormalizedLandmark(x: bv32, y: bv32, z: bv32)

  /** A mediapipe::NormalizedLandmarkList: the repeated field `landmark`. */
  datatype NormalizedLandmarkList = NormalizedLandmarkList(landmark: seq<NormalizedLandmark>)

  /** A mediapipe::Classification; `score` is a float bit pattern. */
  datatype Classification = Classification(index: int32, score: bv32, classLabel: string)

  /** A mediapipe::ClassificationList: the repeated field `classification`. */
  datatype ClassificationList = ClassificationList(classification: seq<Classification>)
}
