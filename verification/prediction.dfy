/** Shared vocabulary of the prediction-smoothing core: the (label, confidence)
    pair a classified frame yields, the window capacity and the placeholder
    shown when there is nothing to show. */
module Predictions {

  /** A (label, confidence) pair; `name` holds the label. The classifier
      produces one per frame and the smoother produces one from the whole
      window; the source uses the same tuple type for both. Confidences are
      reals, not 32-bit floats. */
  datatype Prediction = Prediction(name: string, confidence: real)

  /** Number of frames the window smooths over. */
  const MaxBufferSize: nat := 10

  /** The placeholder label, an en dash. */
  const EmptyLabel: string := "\U{2013}"

  /** What is shown when the window is empty or translation is switched off. */
  const EmptyPrediction: Prediction := Prediction(EmptyLabel, 0.0)

  /** The optional value of a step that may or may not notify the display. */
  datatype Option<+T> = None | Some(value: T)
}
