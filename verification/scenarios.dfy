/** Concrete windows and what they smooth to. */
module Scenarios {
  import opened Predictions
  import opened Smoothing

  /** The highest mean wins, not the most frequent label: one confident
      sighting of `b` outscores two weaker sightings of `a`. */
  lemma HighestMeanBeatsMajority(a: string, b: string)
    requires a != b
    ensures Smooth([Prediction(a, 0.9), Prediction(a, 0.7), Prediction(b, 0.95)]) == Prediction(b, 0.95)
  {
    var b1 := [Prediction(a, 0.9)];
    var b2 := b1 + [Prediction(a, 0.7)];
    var buf := b2 + [Prediction(b, 0.95)];
    assert buf == [Prediction(a, 0.9), Prediction(a, 0.7), Prediction(b, 0.95)];
    TallySnoc([], Prediction(a, 0.9), a);
    TallySnoc([], Prediction(a, 0.9), b);
    assert [] + [Prediction(a, 0.9)] == b1;
    TallySnoc(b1, Prediction(a, 0.7), a);
    TallySnoc(b1, Prediction(a, 0.7), b);
    TallySnoc(b2, Prediction(b, 0.95), a);
    TallySnoc(b2, Prediction(b, 0.95), b);
    assert Mean(buf, a) == 0.8;
    assert Mean(buf, b) == 0.95;
    var r := Smooth(buf);
    assert buf[2].name == b;
    var i :| 0 <= i < |buf| && buf[i].name == r.name;
  }

  /** A full window of one label at one confidence smooths to that pair. */
  lemma FullWindowOfOneLabel()
    ensures Smooth(seq(MaxBufferSize, _ => Prediction("A", 0.5))) == Prediction("A", 0.5)
  {
    SmoothUniform(seq(MaxBufferSize, _ => Prediction("A", 0.5)), "A", 0.5);
  }

  /** On a tie the label seen first is shown, so reordering a window can
      change the label but not the confidence. */
  lemma TieGoesToFirstSeen()
    ensures Smooth([Prediction("A", 0.5), Prediction("B", 0.5)]) == Prediction("A", 0.5)
    ensures Smooth([Prediction("B", 0.5), Prediction("A", 0.5)]) == Prediction("B", 0.5)
  {
    TieOfTwo("A", "B");
    TieOfTwo("B", "A");
  }

  lemma TieOfTwo(a: string, b: string)
    requires a != b
    ensures Smooth([Prediction(a, 0.5), Prediction(b, 0.5)]) == Prediction(a, 0.5)
  {
    var b1 := [Prediction(a, 0.5)];
    var buf := b1 + [Prediction(b, 0.5)];
    assert buf == [Prediction(a, 0.5), Prediction(b, 0.5)];
    assert [] + [Prediction(a, 0.5)] == b1;
    TallySnoc([], Prediction(a, 0.5), a);
    TallySnoc([], Prediction(a, 0.5), b);
    TallySnoc(b1, Prediction(b, 0.5), a);
    TallySnoc(b1, Prediction(b, 0.5), b);
    assert Mean(buf, a) == 0.5 && Mean(buf, b) == 0.5;
    var r := Smooth(buf);
    var i :| 0 <= i < |buf| && buf[i].name == r.name;
    assert HasLabel(buf, a);
    SmoothPrefersFirstSeen(buf, a);
    assert FirstSeen(buf, a) == 0;
  }
}
