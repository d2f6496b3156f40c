/** The ADPCM codec: encoder and decoder adapt in step, and the error stays within the step size. */
module Adpcm {

  /** The table of step sizes, in rows of ten. */
  function StepSize(i: nat): (step: nat)
    requires i <= 88
    ensures 7 <= step <= 32767
  {
    if i < 10 then [7, 8, 9, 10, 11, 12, 13, 14, 16, 17][i]
    else if i < 20 then [19, 21, 23, 25, 28, 31, 34, 37, 41, 45][i - 10]
    else if i < 30 then [50, 55, 60, 66, 73, 80, 88, 97, 107, 118][i - 20]
    else if i < 40 then [130, 143, 157, 173, 190, 209, 230, 253, 279, 307][i - 30]
    else if i < 50 then [337, 371, 408, 449, 494, 544, 598, 658, 724, 796][i - 40]
    else if i < 60 then [876, 963, 1060, 1166, 1282, 1411, 1552, 1707, 1878, 2066][i - 50]
    else if i < 70 then [2272, 2499, 2749, 3024, 3327, 3660, 4026, 4428, 4871, 5358][i - 60]
    else if i < 80 then [5894, 6484, 7132, 7845, 8630, 9493, 10442, 11487, 12635, 13899][i - 70]
    else [15289, 16818, 18500, 20350, 22385, 24623, 27086, 29794, 32767][i - 80]
  }

  const INDEX_TABLE: seq<int> := [-1, -1, -1, -1, 2, 4, 6, 8, -1, -1, -1, -1, 2, 4, 6, 8]

  function IndexChange(code: nat): int
    requires code < 16
  {
    INDEX_TABLE[code]
  }

  predicate Sample16(x: int) {
    -32768 <= x <= 32767
  }

  function Clamp(x: int, low: int, high: int): (r: int)
    requires low <= high
    ensures low <= r <= high && (low <= x <= high ==> r == x)
  {
    if x > high then high else if x < low then low else x
  }

  /** What encoder and decoder both keep from one sample to the next. */
  datatype Predictor = Predictor(index: int, sample: int)

  predicate InRange(p: Predictor) {
    0 <= p.index <= 88 && Sample16(p.sample)
  }

  function Step(p: Predictor): (step: nat)
    requires 0 <= p.index <= 88
    ensures 7 <= step <= 32767
  {
    StepSize(p.index)
  }

  /** Codes have four bits: the sign and three bits of magnitude. */
  datatype Code = Code(negative: bool, whole: bool, half: bool, quarter: bool)

  function Magnitude(c: Code): nat {
    (if c.whole then 4 else 0) + (if c.half then 2 else 0) + (if c.quarter then 1 else 0)
  }

  function CodeNumber(c: Code): nat {
    (if c.negative then 8 else 0) + Magnitude(c)
  }

  /** The difference that a code stands for: never zero, and rounded down bit by bit. */
  function Difference(step: nat, c: Code): nat {
    step / 8 + (if c.whole then step else 0) + (if c.half then step / 2 else 0) + (if c.quarter then step / 4 else 0)
  }

  /** How a code moves the predictor; the only thing that the two sides share. */
  function Next(p: Predictor, c: Code): (q: Predictor)
    requires InRange(p)
    ensures InRange(q)
  {
    var d := Difference(Step(p), c);
    Predictor(Clamp(p.index + IndexChange(CodeNumber(c)), 0, 88),
              Clamp(if c.negative then p.sample - d else p.sample + d, -32768, 32767))
  }

  /** The code for a sample: the magnitude of the difference, in quarters of the step, rounded down and at most seven. */
  function Quantized(p: Predictor, sample: int): Code
    requires InRange(p)
  {
    var step := Step(p);
    var diff := if sample < p.sample then p.sample - sample else sample - p.sample;
    var whole := diff >= step;
    var diff1 := if whole then diff - step else diff;
    var half := diff1 >= step / 2;
    var diff2 := if half then diff1 - step / 2 else diff1;
    Code(sample < p.sample, whole, half, diff2 >= step / 4)
  }

  function Distance(x: int, y: int): nat {
    if x < y then y - x else x - y
  }

  /** As long as the signal does not change by two steps or more, the new prediction is close to it. */
  lemma CloseEnough(p: Predictor, sample: int)
    requires InRange(p) && Sample16(sample) && Distance(sample, p.sample) < 2 * Step(p)
    ensures Distance(Next(p, Quantized(p, sample)).sample, sample) <= Step(p) / 8 + 2
  {
    Unclamped(p, sample);
    hide Step, IndexChange;
    var step, d := Step(p), Distance(sample, p.sample);
    var c := Quantized(p, sample);
    QuantizedWell(step, d, c.whole, c.half, c.quarter);
  }

  lemma QuantizedWell(step: nat, d: nat, whole: bool, half: bool, quarter: bool)
    requires d < 2 * step && whole == (d >= step)
    requires var d1 := if whole then d - step else d; half == (d1 >= step / 2) && quarter == ((if half then d1 - step / 2 else d1) >= step / 4)
    ensures Distance(step / 8 + (if whole then step else 0) + (if half then step / 2 else 0) + (if quarter then step / 4 else 0), d) <= step / 8 + 2
  {
  }

  /** Clamping to sixteen bits brings the prediction no further from a sample of sixteen bits. */
  lemma Unclamped(p: Predictor, sample: int)
    requires InRange(p) && Sample16(sample)
    ensures var c := Quantized(p, sample);
      Distance(Next(p, c).sample, sample) <= Distance(Difference(Step(p), c), Distance(sample, p.sample))
  {
    hide IndexChange, Step;
  }

  /** No smaller bound holds. */
  lemma BoundIsReached()
    ensures var p := Predictor(0, 0); Distance(6, p.sample) < 2 * Step(p) && Distance(Next(p, Quantized(p, 6)).sample, 6) == Step(p) / 8 + 2
  {
    assert StepSize(0) == 7;
  }

  /** A bigger change is answered with the greatest code: one step closer at least, and with a greater step next time. */
  lemma CatchingUp(p: Predictor, sample: int)
    requires InRange(p) && Sample16(sample) && Distance(sample, p.sample) >= 2 * Step(p)
    ensures var q := Next(p, Quantized(p, sample));
      && Magnitude(Quantized(p, sample)) == 7
      && Distance(q.sample, sample) <= Distance(p.sample, sample) - Step(p)
      && q.index == if p.index + 8 <= 88 then p.index + 8 else 88
  {
    hide Step;
    var step := Step(p);
    assert step / 8 + step / 2 + step / 4 <= step;
  }

  /** Each step size is a tenth more than the one before, to the nearest number or the one beside it, up to the greatest of 16 bits. */
  lemma StepsGrow(i: nat)
    requires i < 88
    ensures StepSize(0) == 7 && StepSize(88) == 32767
    ensures i < 87 ==> -10 <= 10 * StepSize(i + 1) - 11 * StepSize(i) <= 10
  {
    if i < 44 {
      LowStepsGrow(i);
    } else if i < 87 {
      HighStepsGrow(i);
    }
    hide StepSize;
  }

  lemma LowStepsGrow(i: nat)
    requires i < 44
    ensures -10 <= 10 * StepSize(i + 1) - 11 * StepSize(i) <= 10
  {
  }

  lemma HighStepsGrow(i: nat)
    requires 44 <= i < 87
    ensures -10 <= 10 * StepSize(i + 1) - 11 * StepSize(i) <= 10
  {
  }

  /** Next time the step is one smaller if the change was less than a step, and else greater, the more so the greater the change. */
  lemma StepAdapts(p: Predictor, sample: int)
    requires InRange(p) && Sample16(sample)
    ensures var q, d, step := Next(p, Quantized(p, sample)), Distance(sample, p.sample), Step(p);
      && (d < step ==> q.index == if p.index == 0 then 0 else p.index - 1)
      && (step <= d < step + step / 4 ==> q.index == if p.index + 2 > 88 then 88 else p.index + 2)
      && (step + step / 4 <= d < step + step / 2 ==> q.index == if p.index + 4 > 88 then 88 else p.index + 4)
      && (step + step / 2 <= d < step + step / 2 + step / 4 ==> q.index == if p.index + 6 > 88 then 88 else p.index + 6)
      && (step + step / 2 + step / 4 <= d ==> q.index == if p.index + 8 > 88 then 88 else p.index + 8)
  {
    hide Step, Difference;
    var c := Quantized(p, sample);
    assert INDEX_TABLE[CodeNumber(c)] == if !c.whole then -1 else if c.half then (if c.quarter then 8 else 6) else if c.quarter then 4 else 2;
  }

  // -------------------------------------------------------------- streams

  /** The predictors after each sample, as the encoder has them. */
  function Encoded(p: Predictor, samples: seq<int>): (r: (seq<Code>, seq<Predictor>))
    requires InRange(p)
    ensures |r.0| == |r.1| == |samples|
    ensures forall q :: q in r.1 ==> InRange(q)
    decreases |samples|
  {
    if samples == [] then ([], [])
    else
      var c := Quantized(p, samples[0]);
      var rest := Encoded(Next(p, c), samples[1..]);
      ([c] + rest.0, [Next(p, c)] + rest.1)
  }

  /** And as the decoder has them, from nothing but the codes. */
  function Decoded(p: Predictor, codes: seq<Code>): seq<Predictor>
    requires InRange(p)
    decreases |codes|
  {
    if codes == [] then [] else [Next(p, codes[0])] + Decoded(Next(p, codes[0]), codes[1..])
  }

  lemma {:induction false} Lockstep(p: Predictor, samples: seq<int>)
    requires InRange(p)
    ensures Decoded(p, Encoded(p, samples).0) == Encoded(p, samples).1
    decreases |samples|
  {
    if samples != [] {
      var c := Quantized(p, samples[0]);
      Lockstep(Next(p, c), samples[1..]);
      hide Next, Quantized;
      assert Encoded(p, samples).0[1..] == Encoded(Next(p, c), samples[1..]).0;
    }
  }

  /** Where the encoder stands before the k-th sample. */
  function Before(p: Predictor, samples: seq<int>, k: nat): Predictor
    requires InRange(p) && k <= |samples|
  {
    if k == 0 then p else Encoded(p, samples).1[k - 1]
  }

  /** What the decoder gives for any sample of any stream is close to it, if the signal was followed that far. */
  lemma {:induction false} StreamIsFollowed(p: Predictor, samples: seq<int>, k: nat)
    requires InRange(p) && k < |samples| && forall x :: x in samples ==> Sample16(x)
    requires InRange(Before(p, samples, k)) && Distance(samples[k], Before(p, samples, k).sample) < 2 * Step(Before(p, samples, k))
    ensures |Decoded(p, Encoded(p, samples).0)| == |samples|
    ensures Distance(Decoded(p, Encoded(p, samples).0)[k].sample, samples[k]) <= Step(Before(p, samples, k)) / 8 + 2
  {
    Lockstep(p, samples);
    EncodedAt(p, samples, k);
    assert samples[k] in samples;
    CloseEnough(Before(p, samples, k), samples[k]);
  }

  lemma {:induction false} EncodedAt(p: Predictor, samples: seq<int>, k: nat)
    requires InRange(p) && k < |samples|
    ensures var b := Before(p, samples, k);
      InRange(b) && Encoded(p, samples).1[k] == Next(b, Quantized(b, samples[k])) && Encoded(p, samples).0[k] == Quantized(b, samples[k])
    decreases |samples|
  {
    hide Quantized, InRange;
    if k > 0 {
      var c := Quantized(p, samples[0]);
      EncodedAt(Next(p, c), samples[1..], k - 1);
    }
  }

  // -------------------------------------------------------------- codes as bytes

  function Byte(c: Code): bv8 {
    (if c.negative then 8 else 0) | (if c.whole then 4 else 0) | (if c.half then 2 else 0) | (if c.quarter then 1 else 0)
  }

  function CodeOf(b: bv8): Code {
    Code(b & 8 != 0, b & 4 != 0, b & 2 != 0, b & 1 != 0)
  }

  lemma ByteAndBack(c: Code)
    ensures CodeOf(Byte(c)) == c && Byte(c) < 16 && Byte(c) & 0x0F == Byte(c) && (IsNegative(Byte(c)) <==> c.negative)
  {
  }

  lemma NumberOfByte(b: bv8)
    requires b < 16
    ensures CodeNumber(CodeOf(b)) == b as nat
  {
    assert b == 0 || b == 1 || b == 2 || b == 3 || b == 4 || b == 5 || b == 6 || b == 7
      || b == 8 || b == 9 || b == 10 || b == 11 || b == 12 || b == 13 || b == 14 || b == 15;
  }

  class Encoder {
    var index: int
    var predsample: int

    constructor ()
      ensures State() == Predictor(0, 0)
    {
      index, predsample := 0, 0;
    }

    function State(): Predictor
      reads this
    {
      Predictor(index, predsample)
    }

    method Encode(sample: int) returns (result: bv8)
      requires InRange(State()) && Sample16(sample)
      modifies this
      ensures InRange(State()) && CodeOf(result) == Quantized(old(State()), sample) && result < 16
      ensures State() == Next(old(State()), CodeOf(result))
    {
      hide Byte, CodeOf, StepSize, IndexChange, Next, Difference, Quantized, IsNegative;
      var code, diffq;
      ghost var c;
      code, diffq, c := Quantize(sample);
      ByteAndBack(c);
      NumberOfByte(code);
      result := code & 0x0F;
      Adapt(code, diffq, c);
    }

    /** The comparisons with the step, its half and its quarter: the code, and the difference that it stands for. */
    method Quantize(sample: int) returns (code: bv8, diffq: nat, ghost c: Code)
      requires InRange(State())
      ensures code == Byte(c) && diffq == Difference(StepSize(index), c) && c == Quantized(State(), sample)
    {
      hide Byte, StepSize, IndexChange, Difference, Quantized;
      c := Code(sample < predsample, false, false, false);
      var step := StepSize(index);
      Built(step, c);
      code := 0;
      var diff := sample - predsample;
      if diff < 0 {
        code := 8;
        diff := -diff;
      }
      ghost var d := diff;
      var tmpstep := step;
      diffq := step / 8;
      if diff >= tmpstep {
        code := code | 4;
        diff := diff - tmpstep;
        diffq := diffq + step;
        c := c.(whole := true);
      }
      assert code == Byte(c) && diffq == Difference(step, c);
      assert c.whole == (d >= step) && diff == if c.whole then d - step else d;
      Built(step, c);
      tmpstep := tmpstep / 2;
      ghost var d1 := diff;
      if diff >= tmpstep {
        code := code | 2;
        diff := diff - tmpstep;
        diffq := diffq + step / 2;
        c := c.(half := true);
      }
      assert code == Byte(c) && diffq == Difference(step, c);
      assert c.half == (d1 >= step / 2) && diff == if c.half then d1 - step / 2 else d1;
      Built(step, c);
      tmpstep := tmpstep / 2;
      assert tmpstep == step / 4;
      if diff >= tmpstep {
        code := code | 1;
        diffq := diffq + step / 4;
        c := c.(quarter := true);
      }
      QuantizedBy(State(), sample, c);
    }

    /** The end of encoding: the prediction and the index of the next step, kept in range. */
    method Adapt(code: bv8, diffq: nat, ghost c: Code)
      requires InRange(State()) && CodeNumber(c) == code as nat < 16 && (IsNegative(code) <==> c.negative)
      requires diffq == Difference(StepSize(index), c)
      modifies this
      ensures State() == Next(old(State()), c)
    {
      hide StepSize, IndexChange, Next, Difference, IsNegative;
      NextBy(State(), c, diffq);
      if IsNegative(code) {
        predsample := predsample - diffq;
      } else {
        predsample := predsample + diffq;
      }
      if predsample > 32767 {
        predsample := 32767;
      } else if predsample < -32768 {
        predsample := -32768;
      }
      index := index + IndexChange(code as nat);
      if index < 0 {
        index := 0;
      } else if index > 88 {
        index := 88;
      }
    }
  }

  predicate IsNegative(b: bv8) {
    b & 8 != 0
  }

  lemma QuantizedBy(p: Predictor, sample: int, c: Code)
    requires InRange(p)
    requires var step := StepSize(p.index);
      var diff := if sample < p.sample then p.sample - sample else sample - p.sample;
      var diff1 := if c.whole then diff - step else diff;
      var diff2 := if c.half then diff1 - step / 2 else diff1;
      && c.negative == (sample < p.sample) && c.whole == (diff >= step) && c.half == (diff1 >= step / 2) && c.quarter == (diff2 >= step / 4)
    ensures c == Quantized(p, sample)
  {
    hide StepSize;
  }

  lemma NextBy(p: Predictor, c: Code, d: nat)
    requires InRange(p) && d == Difference(StepSize(p.index), c)
    ensures var s := if c.negative then p.sample - d else p.sample + d;
      Next(p, c).sample == (if s > 32767 then 32767 else if s < -32768 then -32768 else s)
    ensures var i := p.index + IndexChange(CodeNumber(c));
      Next(p, c).index == (if i > 88 then 88 else if i < 0 then 0 else i)
  {
    hide StepSize, IndexChange, Difference;
  }

  lemma Built(step: nat, c: Code)
    ensures !c.whole && !c.half && !c.quarter ==> Difference(step, c) == step / 8 && Difference(step, c.(whole := true)) == step / 8 + step
    ensures !c.half && !c.quarter ==> Difference(step, c.(half := true)) == Difference(step, c) + step / 2
    ensures !c.quarter ==> Difference(step, c.(quarter := true)) == Difference(step, c) + step / 4
    ensures !c.whole && !c.half && !c.quarter ==> Byte(c) == if c.negative then 8 else 0
    ensures !c.whole && !c.half && !c.quarter ==> Byte(c) | 4 == Byte(c.(whole := true))
    ensures !c.half && !c.quarter ==> Byte(c) | 2 == Byte(c.(half := true))
    ensures !c.quarter ==> Byte(c) | 1 == Byte(c.(quarter := true))
  {
    BytesBuilt(c);
    hide Byte;
  }

  lemma BytesBuilt(c: Code)
    ensures !c.whole && !c.half && !c.quarter ==> Byte(c) == if c.negative then 8 else 0
    ensures !c.whole && !c.half && !c.quarter ==> Byte(c) | 4 == Byte(c.(whole := true))
    ensures !c.half && !c.quarter ==> Byte(c) | 2 == Byte(c.(half := true))
    ensures !c.quarter ==> Byte(c) | 1 == Byte(c.(quarter := true))
  {
  }

  class Decoder {
    var index: int
    var predsample: int

    constructor ()
      ensures State() == Predictor(0, 0)
    {
      index, predsample := 0, 0;
    }

    function State(): Predictor
      reads this
    {
      Predictor(index, predsample)
    }

    /** A code has four bits; a greater one would be looked up behind the end of the table. */
    method Decode(code: bv8) returns (r: int)
      requires InRange(State()) && code < 16
      modifies this
      ensures InRange(State()) && State() == Next(old(State()), CodeOf(code)) && r == State().sample
    {
      hide StepSize, IndexChange, Next;
      ghost var c := CodeOf(code);
      NumberOfByte(code);
      var step := StepSize(index);
      var diffq := step / 8;
      if code & 4 != 0 {
        diffq := diffq + step;
      }
      if code & 2 != 0 {
        diffq := diffq + step / 2;
      }
      if code & 1 != 0 {
        diffq := diffq + step / 4;
      }
      NextBy(old(State()), c, diffq);
      if code & 8 != 0 {
        predsample := predsample - diffq;
      } else {
        predsample := predsample + diffq;
      }
      if predsample > 32767 {
        predsample := 32767;
      } else if predsample < -32768 {
        predsample := -32768;
      }
      index := index + IndexChange(code as nat);
      if index < 0 {
        index := 0;
      }
      if index > 88 {
        index := 88;
      }
      return predsample;
    }
  }

  function Samples(states: seq<Predictor>): seq<int> {
    seq(|states|, i requires 0 <= i < |states| => states[i].sample)
  }

  lemma SampledNext(states: seq<Predictor>, k: nat)
    requires k < |states|
    ensures Samples(states[..k + 1]) == Samples(states[..k]) + [states[k].sample]
  {
  }

  /** A stream through both, one sample at a time: after each they agree, whatever the samples are. */
  method Transmit(encoder: Encoder, decoder: Decoder, samples: seq<int>) returns (received: seq<int>)
    requires InRange(encoder.State()) && decoder.State() == encoder.State() && forall x :: x in samples ==> Sample16(x)
    modifies encoder, decoder
    ensures decoder.State() == encoder.State() && InRange(encoder.State())
    ensures received == Samples(Encoded(old(encoder.State()), samples).1)
  {
    ghost var p := encoder.State();
    received := [];
    for k := 0 to |samples|
      invariant InRange(encoder.State()) && decoder.State() == encoder.State() && encoder.State() == Before(p, samples, k)
      invariant received == Samples(Encoded(p, samples).1[..k])
    {
      hide Next, Quantized, Step, CodeOf, InRange, Sample16, Encoded, Samples;
      EncodedAt(p, samples, k);
      SampledNext(Encoded(p, samples).1, k);
      assert samples[k] in samples;
      var code := encoder.Encode(samples[k]);
      var r := decoder.Decode(code);
      received := received + [r];
    }
  }
}
