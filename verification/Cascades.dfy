/** Cascades of stages that each take a sample, change their memory and give a sample, whatever the
    stages are; two channels of them behind a gain. */
module Cascades {
  import opened Mapping

  /** The stages after one sample has gone through them. */
  function Fed<S>(step: (S, real) -> (S, real), stages: seq<S>, x: real): (r: seq<S>)
    ensures |r| == |stages|
  {
    if stages == [] then []
    else [step(stages[0], x).0] + Fed(step, stages[1..], step(stages[0], x).1)
  }

  /** The sample that comes out. */
  function Through<S>(step: (S, real) -> (S, real), stages: seq<S>, x: real): real {
    if stages == [] then x else Through(step, stages[1..], step(stages[0], x).1)
  }

  /** The samples a cascade gives for the samples of one channel. */
  function Filter<S>(step: (S, real) -> (S, real), stages: seq<S>, xs: seq<real>): (r: seq<real>)
    ensures |r| == |xs|
    decreases xs
  {
    if xs == [] then [] else [Through(step, stages, xs[0])] + Filter(step, Fed(step, stages, xs[0]), xs[1..])
  }

  // ---- Splitting and scaling --------------------------------------------------------

  lemma {:induction false} FedSplit<S>(step: (S, real) -> (S, real), a: seq<S>, b: seq<S>, x: real)
    ensures Fed(step, a + b, x) == Fed(step, a, x) + Fed(step, b, Through(step, a, x))
    ensures Through(step, a + b, x) == Through(step, b, Through(step, a, x))
  {
    if a == [] {
      assert a + b == b;
    } else {
      FedSplit(step, a[1..], b, step(a[0], x).1);
      assert (a + b)[1..] == a[1..] + b;
    }
  }

  /** One long cascade is two short ones in a row. */
  lemma {:induction false} FilterSplit<S>(step: (S, real) -> (S, real), a: seq<S>, b: seq<S>, xs: seq<real>)
    ensures Filter(step, a + b, xs) == Filter(step, b, Filter(step, a, xs))
    decreases xs
  {
    if xs != [] {
      FedSplit(step, a, b, xs[0]);
      FilterSplit(step, Fed(step, a, xs[0]), Fed(step, b, Through(step, a, xs[0])), xs[1..]);
      assert Filter(step, a, xs)[1..] == Filter(step, Fed(step, a, xs[0]), xs[1..]);
    }
  }

  /** Scaling a stage's memory and its input scales its output and what it remembers. */
  ghost predicate Homogeneous<S(!new)>(step: (S, real) -> (S, real), scale: S -> S, gain: real -> real) {
    forall s, x :: step(scale(s), gain(x)) == (scale(step(s, x).0), gain(step(s, x).1))
  }

  lemma {:induction false} FedScales<S(!new)>(step: (S, real) -> (S, real), scale: S -> S, gain: real -> real,
        stages: seq<S>, x: real)
    requires Homogeneous(step, scale, gain)
    ensures Fed(step, Map(scale, stages), gain(x)) == Map(scale, Fed(step, stages, x))
    ensures Through(step, Map(scale, stages), gain(x)) == gain(Through(step, stages, x))
  {
    if stages != [] {
      var (next, y) := step(stages[0], x);
      FedScales(step, scale, gain, stages[1..], y);
      MapTail(scale, stages);
      assert Map(scale, [next] + Fed(step, stages[1..], y)) == [scale(next)] + Map(scale, Fed(step, stages[1..], y));
    }
  }

  /** A cascade is homogeneous: scale its memory and its input, and its output is scaled. */
  lemma {:induction false} FilterScales<S(!new)>(step: (S, real) -> (S, real), scale: S -> S, gain: real -> real,
        stages: seq<S>, xs: seq<real>)
    requires Homogeneous(step, scale, gain)
    ensures Filter(step, Map(scale, stages), Map(gain, xs)) == Map(gain, Filter(step, stages, xs))
    decreases xs
  {
    if xs != [] {
      var next, y, rest := Fed(step, stages, xs[0]), Through(step, stages, xs[0]), xs[1..];
      FedScales(step, scale, gain, stages, xs[0]);
      FilterScales(step, scale, gain, next, rest);
      MapTail(gain, xs);
      MapCons(gain, y, Filter(step, next, rest));
    }
  }

  /** Stages whose memory scaling does not change, as when there is none. */
  ghost predicate Fixed<S>(scale: S -> S, stages: seq<S>) {
    forall i :: 0 <= i < |stages| ==> scale(stages[i]) == stages[i]
  }

  lemma MapFixed<S>(scale: S -> S, stages: seq<S>)
    requires Fixed(scale, stages)
    ensures Map(scale, stages) == stages
  {
  }

  lemma MapTwice(first: real -> real, second: real -> real, both: real -> real, xs: seq<real>)
    requires forall x :: both(x) == second(first(x))
    ensures Map(second, Map(first, xs)) == Map(both, xs)
  {
    forall i | 0 <= i < |xs| ensures Map(second, Map(first, xs))[i] == Map(both, xs)[i] {
      var x := xs[i];
      assert Map(first, xs)[i] == first(x);
      assert both(x) == second(first(x));
    }
  }

  /** A gain after a resting cascade can be moved in front of it. */
  lemma GainMovesToFront<S(!new)>(step: (S, real) -> (S, real), scale: S -> S, first: real -> real,
        second: real -> real, both: real -> real,
                                  a: seq<S>, b: seq<S>, xs: seq<real>)
    requires Homogeneous(step, scale, second) && Fixed(scale, a)
    requires forall x :: both(x) == second(first(x))
    ensures Filter(step, b, Map(second, Filter(step, a, Map(first, xs)))) == Filter(step, a + b, Map(both, xs))
  {
    FilterScales(step, scale, second, a, Map(first, xs));
    MapFixed(scale, a);
    MapTwice(first, second, both, xs);
    FilterSplit(step, a, b, Map(both, xs));
  }

  // ---- Two channels -----------------------------------------------------------------

  datatype Chain<S> = Chain(gain: real -> real, left: seq<S>, right: seq<S>)

  function Frame<S>(step: (S, real) -> (S, real), c: Chain<S>, frame: (real, real)): (Chain<S>, (real, real)) {
    var (l, r) := (c.gain(frame.0), c.gain(frame.1));
    (Chain(c.gain, Fed(step, c.left, l), Fed(step, c.right, r)), (Through(step, c.left, l), Through(step, c.right, r)))
  }

  /** The frames a chain gives, frame after frame. */
  function Play<S>(step: (S, real) -> (S, real), c: Chain<S>, frames: seq<(real, real)>): (r: seq<(real, real)>)
    ensures |r| == |frames|
    decreases frames
  {
    if frames == [] then []
    else [Frame(step, c, frames[0]).1] + Play(step, Frame(step, c, frames[0]).0, frames[1..])
  }

  function After<S>(step: (S, real) -> (S, real), c: Chain<S>, frames: seq<(real, real)>): Chain<S>
    decreases frames
  {
    if frames == [] then c else After(step, Frame(step, c, frames[0]).0, frames[1..])
  }

  function Lefts(frames: seq<(real, real)>): seq<real> { Map((f: (real, real)) => f.0, frames) }

  function Rights(frames: seq<(real, real)>): seq<real> { Map((f: (real, real)) => f.1, frames) }

  /** The two channels do not touch each other. */
  lemma {:induction false} PlayByChannel<S>(step: (S, real) -> (S, real), c: Chain<S>, frames: seq<(real, real)>)
    ensures Lefts(Play(step, c, frames)) == Filter(step, c.left, Map(c.gain, Lefts(frames)))
    ensures Rights(Play(step, c, frames)) == Filter(step, c.right, Map(c.gain, Rights(frames)))
    decreases frames
  {
    if frames != [] {
      var (next, out) := Frame(step, c, frames[0]);
      var rest := Play(step, next, frames[1..]);
      PlayByChannel(step, next, frames[1..]);
      assert Lefts([out] + rest) == [out.0] + Lefts(rest);
      assert Rights([out] + rest) == [out.1] + Rights(rest);
      assert Map(c.gain, Lefts(frames))[1..] == Map(c.gain, Lefts(frames[1..]));
      assert Map(c.gain, Rights(frames))[1..] == Map(c.gain, Rights(frames[1..]));
    }
  }

  lemma SameChannels(a: seq<(real, real)>, b: seq<(real, real)>)
    requires Lefts(a) == Lefts(b) && Rights(a) == Rights(b)
    ensures a == b
  {
    assert |a| == |Lefts(a)| == |b|;
    forall i | 0 <= i < |a| ensures a[i] == b[i] {
      assert a[i] == (Lefts(a)[i], Rights(a)[i]) && b[i] == (Lefts(b)[i], Rights(b)[i]);
    }
  }

  /** A resting chain followed by another is one chain with both cascades and the two gains in front. */
  lemma PlayInSequence<S(!new)>(step: (S, real) -> (S, real), scale: S -> S, c: Chain<S>, l: Chain<S>,
        both: real -> real, frames: seq<(real, real)>)
    requires Homogeneous(step, scale, l.gain) && Fixed(scale, c.left) && Fixed(scale, c.right)
    requires forall x :: both(x) == l.gain(c.gain(x))
    ensures Play(step, l, Play(step, c, frames)) == Play(step, Chain(both, c.left + l.left, c.right + l.right), frames)
  {
    var e := Chain(both, c.left + l.left, c.right + l.right);
    PlayByChannel(step, c, frames);
    PlayByChannel(step, l, Play(step, c, frames));
    PlayByChannel(step, e, frames);
    GainMovesToFront(step, scale, c.gain, l.gain, both, c.left, l.left, Lefts(frames));
    GainMovesToFront(step, scale, c.gain, l.gain, both, c.right, l.right, Rights(frames));
    SameChannels(Play(step, l, Play(step, c, frames)), Play(step, e, frames));
  }

  lemma {:induction false} PlayNothing<S>(step: (S, real) -> (S, real), gain: real -> real, frames: seq<(real, real)>)
    requires forall x :: gain(x) == x
    ensures Play(step, Chain(gain, [], []), frames) == frames
  {
    if frames != [] { PlayNothing(step, gain, frames[1..]); }
  }

  /** Playing changes only what a stage remembers, so what forgetting leaves of it is unchanged. */
  lemma {:induction false} FedForgotten<S(!new)>(step: (S, real) -> (S, real), forget: S -> S, stages: seq<S>, x: real)
    requires forall s, x :: forget(step(s, x).0) == forget(s)
    ensures Map(forget, Fed(step, stages, x)) == Map(forget, stages)
  {
    if stages != [] {
      var (next, y) := step(stages[0], x);
      FedForgotten(step, forget, stages[1..], y);
      assert Map(forget, [next] + Fed(step, stages[1..], y)) == [forget(next)] + Map(forget, Fed(step, stages[1..], y));
      assert Map(forget, stages) == [forget(stages[0])] + Map(forget, stages[1..]);
    }
  }

  lemma {:induction false} PlayForgotten<S(!new)>(step: (S, real) -> (S, real), forget: S -> S, c: Chain<S>,
        frames: seq<(real, real)>)
    requires forall s, x :: forget(step(s, x).0) == forget(s)
    ensures var played := After(step, c, frames);
            played.gain == c.gain && Map(forget, played.left) == Map(forget, c.left) &&
                Map(forget, played.right) == Map(forget, c.right)
    decreases frames
  {
    if frames != [] {
      FedForgotten(step, forget, c.left, c.gain(frames[0].0));
      FedForgotten(step, forget, c.right, c.gain(frames[0].1));
      PlayForgotten(step, forget, Frame(step, c, frames[0]).0, frames[1..]);
    }
  }
}
