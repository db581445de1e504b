/** The transcript entities of src/vemsa/jobs/models.py and the diarizer's turns. */
module Models {
  import opened Base

  datatype Word = Word(word: string, start: real, end: real, probability: Option<real>)

  datatype Attribution = Assigned | Provisional | Unassigned

  datatype Segment = Segment(
    start: real,
    end: real,
    speaker: Option<string>,
    text: string,
    words: seq<Word>,
    attribution: Option<Attribution>,
    overlapIds: seq<string>)

  /** A segment with the optional fields at their defaults. */
  function PlainSegment(start: real, end: real, speaker: Option<string>, text: string, words: seq<Word>): Segment {
    Segment(start, end, speaker, text, words, None, [])
  }

  /** One stretch of one voice, as the diarizer reports it. */
  datatype Turn = Turn(start: real, end: real, speaker: string)

  /** The admission check on caller timestamps. */
  predicate ValidSpan(start: real, end: real) {
    0.0 <= start <= end
  }

  /** The sort key of words, turns and segments. */
  const WordStart: Word -> real := (w: Word) => w.start
  const TurnStart: Turn -> real := (t: Turn) => t.start
  const SegmentStart: Segment -> real := (s: Segment) => s.start
}
