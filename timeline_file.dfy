/**
 * The `timeline.json` file as the tools read it back: the keys a reader
 * looks up, each possibly missing, and the object `predict_frames` writes.
 */
module TimelineFile {

  import opened Wrappers
  import PredictFrames

  /**
   * The keys the tools read; `None` is a missing key.  `nonEmpty` says
   * whether the object has any key at all (an empty object is falsy).
   */
  datatype Fields = Fields(
    nonEmpty: bool,
    model: Option<string>,
    threshold: Option<real>,
    totalFrames: Option<int>,
    fps: Option<real>,
    overallScore: Option<real>,
    averageScore: Option<real>,
    suspiciousSegments: Option<seq<(real, real)>>,
    segmentsSec: Option<seq<(real, real)>>,
    numSuspiciousSegments: Option<int>)

  /** The object `predict_frames` writes for a timeline: the segments under both names, and their number. */
  function Written(t: PredictFrames.Timeline, modelName: string): (f: Fields)
    ensures f.nonEmpty
    ensures f.suspiciousSegments == Some(t.segments) && f.segmentsSec == Some(t.segments)
    ensures f.numSuspiciousSegments == Some(t.numSegments as int)
    ensures f.overallScore == Some(t.overallScore) && f.averageScore == Some(t.averageScore)
    ensures f.totalFrames == Some(t.totalFrames as int) && f.fps == Some(t.fps) && f.threshold == Some(t.threshold)
    ensures f.model == Some(modelName)
  {
    Fields(true, Some(modelName), Some(t.threshold), Some(t.totalFrames as int), Some(t.fps),
           Some(t.overallScore), Some(t.averageScore), Some(t.segments), Some(t.segments), Some(t.numSegments as int))
  }
}
