/** The debounce filter `setGesture` (web/app.js:21-29): a FIFO of the most
    recent labels, and a label is shown only when the whole FIFO agrees. */
module Stability {

  import opened Options
  import opened Gestures
  import Config

  /** The filter's state: the recent labels, oldest first, and the label
      whose image is on display (None before anything was shown). */
  datatype Filter = Filter(window: seq<Label>, shown: Option<Label>)

  /** The outcome of one observation: the next state, and the label emitted
      for display, if any. */
  datatype Step = Step(next: Filter, emitted: Option<Label>)

  /** The state at start-up: an empty window and nothing shown. */
  const Initial := Filter([], None)

  /** The last `n` elements of `s`, in order; all of `s` when it is shorter. */
  function Last(s: seq<Label>, n: nat): seq<Label>
  {
    if |s| <= n then s else s[|s| - n..]
  }

  /** Every entry of `w` is `name`. */
  predicate Unanimous(w: seq<Label>, name: Label)
  {
    forall k :: 0 <= k < |w| ==> w[k] == name
  }

  /** `setGesture(name)`: push the label, drop the oldest entry when the
      window overflows, and emit the label when the window is unanimous. A
      window within bounds before the call holds, after it, the last
      SmoothFrames labels seen, newest last. */
  function Observe(f: Filter, name: Label): (s: Step)
    ensures |f.window| <= Config.SmoothFrames ==>
              s.next.window == Last(f.window + [name], Config.SmoothFrames) &&
              |s.next.window| <= Config.SmoothFrames
    ensures |s.next.window| > 0 && s.next.window[|s.next.window| - 1] == name
    ensures s.emitted.Some? <==> Unanimous(s.next.window, name)
    ensures s.emitted.Some? ==> s.emitted.value == name && s.next.shown == s.emitted
    ensures s.emitted.None? ==> s.next.shown == f.shown
  {
    var pushed := f.window + [name];
    var window := if |pushed| > Config.SmoothFrames then pushed[1..] else pushed;
    if Unanimous(window, name) then Step(Filter(window, Some(name)), Some(name))
    else Step(Filter(window, f.shown), None)
  }

  /** Keeping the last `n` of a sequence and then the last `n` after one more
      element is keeping the last `n` of the extended sequence. */
  lemma LastAppend(s: seq<Label>, x: Label, n: nat)
    ensures Last(Last(s, n) + [x], n) == Last(s + [x], n)
  {
    if |s| > n {
      assert Last(s, n) + [x] == (s + [x])[|s| - n..];
    }
  }

  /** The filter after observing `feed` from start-up. Its window is the last
      min(|feed|, SmoothFrames) labels of the feed, in arrival order. */
  function Replay(feed: seq<Label>): (f: Filter)
    ensures f.window == Last(feed, Config.SmoothFrames)
    ensures |f.window| <= Config.SmoothFrames
  {
    if |feed| == 0 then Initial
    else
      var prefix := feed[..|feed| - 1];
      assert feed == prefix + [feed[|feed| - 1]];
      LastAppend(prefix, feed[|feed| - 1], Config.SmoothFrames);
      Observe(Replay(prefix), feed[|feed| - 1]).next
  }

  /** What the filter emits at each frame of `feed`, one entry per frame. */
  function Emissions(feed: seq<Label>): (e: seq<Option<Label>>)
    ensures |e| == |feed|
  {
    if |feed| == 0 then []
    else
      var prefix := feed[..|feed| - 1];
      Emissions(prefix) + [Observe(Replay(prefix), feed[|feed| - 1]).emitted]
  }

  /** Frame `i` of `feed` agrees with every frame of the window that ends at
      it: the frames at most SmoothFrames - 1 earlier. */
  predicate Settled(feed: seq<Label>, i: nat)
    requires i < |feed|
  {
    forall j :: 0 <= j <= i && i - j < Config.SmoothFrames ==> feed[j] == feed[i]
  }

  /** Emissions for a prefix of the feed are a prefix of the emissions. */
  lemma {:induction false} EmissionsPrefix(feed: seq<Label>, k: nat)
    requires k <= |feed|
    ensures Emissions(feed[..k]) == Emissions(feed)[..k]
    decreases |feed|
  {
    if k < |feed| {
      var prefix := feed[..|feed| - 1];
      assert feed[..k] == prefix[..k];
      EmissionsPrefix(prefix, k);
    } else {
      assert feed[..k] == feed;
    }
  }

  /** Frame `i` emits what observing its label in the state left by the
      frames before it emits. */
  lemma {:induction false} EmittedAt(feed: seq<Label>, i: nat)
    requires i < |feed|
    ensures Emissions(feed)[i] == Observe(Replay(feed[..i]), feed[i]).emitted
  {
    var upto := feed[..i + 1];
    EmissionsPrefix(feed, i + 1);
    assert upto[..|upto| - 1] == feed[..i];
    assert upto[|upto| - 1] == feed[i];
    assert Emissions(upto) == Emissions(feed[..i]) + [Observe(Replay(feed[..i]), feed[i]).emitted];
    assert Emissions(feed)[i] == Emissions(upto)[i];
  }

  /** The window seen at frame `i` is the stretch of the feed that ends at
      frame `i` and holds at most SmoothFrames frames. */
  lemma {:induction false} WindowAt(feed: seq<Label>, i: nat)
    requires i < |feed|
    ensures var lo := if i + 1 <= Config.SmoothFrames then 0 else i + 1 - Config.SmoothFrames;
            Observe(Replay(feed[..i]), feed[i]).next.window == feed[lo..i + 1]
  {
    assert feed[..i] + [feed[i]] == feed[..i + 1];
  }

  /** Frame `i` emits its own label exactly when it is settled, and nothing
      otherwise. */
  lemma {:induction false} EmissionIff(feed: seq<Label>, i: nat)
    requires i < |feed|
    ensures Emissions(feed)[i] == (if Settled(feed, i) then Some(feed[i]) else None)
  {
    EmittedAt(feed, i);
    WindowAt(feed, i);
    var step := Observe(Replay(feed[..i]), feed[i]);
    var lo := if i + 1 <= Config.SmoothFrames then 0 else i + 1 - Config.SmoothFrames;
    UnanimousIffSettled(feed, i, lo);
    assert step.emitted.Some? <==> Settled(feed, i);
  }

  /** The stretch of the feed ending at frame `i` and reaching back as far as
      the window does is unanimous exactly when frame `i` is settled. */
  lemma UnanimousIffSettled(feed: seq<Label>, i: nat, lo: nat)
    requires i < |feed|
    requires lo == if i + 1 <= Config.SmoothFrames then 0 else i + 1 - Config.SmoothFrames
    ensures Unanimous(feed[lo..i + 1], feed[i]) <==> Settled(feed, i)
  {
    var w := feed[lo..i + 1];
    if Settled(feed, i) {
      forall k | 0 <= k < |w|
        ensures w[k] == feed[i]
      {
        assert w[k] == feed[lo + k];
      }
    } else {
      var j :| 0 <= j <= i && i - j < Config.SmoothFrames && feed[j] != feed[i];
      assert w[j - lo] != feed[i];
    }
  }

  /** The first frame always emits: a one-entry window is unanimous. */
  lemma FirstFrameEmits(feed: seq<Label>)
    requires |feed| > 0
    ensures Emissions(feed)[0] == Some(feed[0])
  {
    EmissionIff(feed, 0);
  }

  /** With a window of three, the feed a, a, a, b, b, b emits at frames 1, 2,
      3 and 6 and at no other frame. */
  lemma SixFrameExample(a: Label, b: Label)
    requires a != b
    ensures Emissions([a, a, a, b, b, b]) == [Some(a), Some(a), Some(a), None, None, Some(b)]
  {
    var feed := [a, a, a, b, b, b];
    var e := Emissions(feed);
    EmissionIff(feed, 0);
    EmissionIff(feed, 1);
    EmissionIff(feed, 2);
    assert Settled(feed, 2) by {
      forall j | 0 <= j <= 2 ensures feed[j] == a { }
    }
    EmissionIff(feed, 3);
    assert !Settled(feed, 3) by { assert feed[2] != feed[3]; }
    EmissionIff(feed, 4);
    assert !Settled(feed, 4) by { assert feed[2] != feed[4]; }
    EmissionIff(feed, 5);
    assert Settled(feed, 5) by {
      forall j | 0 <= j <= 5 && 5 - j < Config.SmoothFrames ensures feed[j] == b {
        assert 3 <= j;
      }
    }
    assert e == [Some(a), Some(a), Some(a), None, None, Some(b)];
  }

  /** The label most recently emitted in `e`, if any. */
  function LatestEmitted(e: seq<Option<Label>>): Option<Label>
  {
    if |e| == 0 then None
    else if e[|e| - 1].Some? then e[|e| - 1]
    else LatestEmitted(e[..|e| - 1])
  }

  /** The displayed label is the one most recently emitted: frames that emit
      nothing leave the display as it was. */
  lemma {:induction false} ShownIsLatestEmitted(feed: seq<Label>)
    ensures Replay(feed).shown == LatestEmitted(Emissions(feed))
  {
    if |feed| > 0 {
      var prefix := feed[..|feed| - 1];
      ShownIsLatestEmitted(prefix);
      assert Emissions(feed)[..|feed| - 1] == Emissions(prefix);
    }
  }
}
