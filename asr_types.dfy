/**
 * The values the speech backend hands back for one transcription pass: the
 * text (one char per byte), the per-token timestamps in server order and
 * whether the pass was requested as the final one.
 */
module AsrTypes {

  /** One word timestamp: where the token starts in the text and in the audio. */
  datatype Stamp = Stamp(byteOffset: int, audioMs: int)

  /** A completed pass; a missing result is the empty text with no stamps. */
  datatype Pass = Pass(text: string, stamps: seq<Stamp>, isFinal: bool)
}
