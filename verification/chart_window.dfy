/**
 * The bounded chart history of addDataPoint (script.js): two series used as
 * sliding windows of the newest readings, and the time labels, which grow
 * only when the two series are of equal length.
 */
module ChartWindow {

  /** maxDataPoints */
  const MaxDataPoints: nat := 20

  /** The newest `n` elements of `s` (all of them when there are fewer). */
  function Newest<T>(s: seq<T>, n: nat): (r: seq<T>)
    ensures |r| == if |s| <= n then |s| else n
    ensures r == s[|s| - |r|..]
  {
    if |s| <= n then s else s[|s| - n..]
  }

  /** push, then shift once when the window has grown beyond maxDataPoints. */
  function Push<T>(window: seq<T>, x: T): (r: seq<T>)
    ensures |window| <= MaxDataPoints ==> |r| <= MaxDataPoints
    ensures |r| > 0 && r[|r| - 1] == x
    ensures |window| < MaxDataPoints ==> r == window + [x]
    ensures |window| >= MaxDataPoints ==> r == window[1..] + [x]
  {
    var grown := window + [x];
    if |grown| > MaxDataPoints then grown[1..] else grown
  }

  /** A window that never exceeded its cap holds, after one push, the newest points of all it was given. */
  lemma PushKeepsNewest<T>(window: seq<T>, x: T)
    requires |window| <= MaxDataPoints
    ensures Push(window, x) == Newest(window + [x], MaxDataPoints)
  {
  }

  /** The window after pushing each element of `xs` in turn. */
  function PushAll<T>(window: seq<T>, xs: seq<T>): (r: seq<T>)
    decreases |xs|
  {
    if xs == [] then window else PushAll(Push(window, xs[0]), xs[1..])
  }

  /**
   * Starting from a window within the cap, any run of pushes leaves exactly
   * the newest maxDataPoints values of everything ever pushed, oldest first.
   */
  lemma {:induction false} PushAllKeepsNewest<T>(window: seq<T>, xs: seq<T>)
    requires |window| <= MaxDataPoints
    ensures PushAll(window, xs) == Newest(window + xs, MaxDataPoints)
    decreases |xs|
  {
    if xs == [] {
      assert window + xs == window;
    } else {
      var x, rest := xs[0], xs[1..];
      var w := Push(window, x);
      calc {
        PushAll(window, xs);
        PushAll(w, rest);
        { PushAllKeepsNewest(w, rest); }
        Newest(w + rest, MaxDataPoints);
        { PushKeepsNewest(window, x); }
        Newest(Newest(window + [x], MaxDataPoints) + rest, MaxDataPoints);
        { NewestOfNewest(window + [x], rest, MaxDataPoints); }
        Newest(window + [x] + rest, MaxDataPoints);
        { assert window + [x] + rest == window + xs; }
        Newest(window + xs, MaxDataPoints);
      }
    }
  }

  /** Keeping the newest `n` of a prefix loses nothing that the newest `n` of the whole needs. */
  lemma NewestOfNewest<T>(s: seq<T>, t: seq<T>, n: nat)
    ensures Newest(Newest(s, n) + t, n) == Newest(s + t, n)
  {
    var u := Newest(s, n);
    assert s == s[..|s| - |u|] + u;
    assert s + t == s[..|s| - |u|] + (u + t);
  }

  datatype Series = Temperature | Humidity

  /** The three arrays the chart draws. */
  datatype History = History(temperatureData: seq<real>, humidityData: seq<real>, timeLabels: seq<string>)

  predicate Bounded(h: History)
  {
    |h.temperatureData| <= MaxDataPoints && |h.humidityData| <= MaxDataPoints && |h.timeLabels| <= MaxDataPoints
  }

  /**
   * addDataPoint: the value goes into its own series' window; a time label is
   * pushed only when the two series then have equal length. The label text
   * (the clock's time of day) is given.
   */
  function AddPoint(h: History, series: Series, value: real, timeLabel: string): (r: History)
    ensures Bounded(h) ==> Bounded(r)
    ensures series == Temperature ==> r.humidityData == h.humidityData
    ensures series == Humidity ==> r.temperatureData == h.temperatureData
    ensures r.timeLabels == if |r.temperatureData| == |r.humidityData| then Push(h.timeLabels, timeLabel) else h.timeLabels
  {
    var withValue :=
      if series == Temperature then h.(temperatureData := Push(h.temperatureData, value))
      else h.(humidityData := Push(h.humidityData, value));
    if |withValue.temperatureData| == |withValue.humidityData| then
      withValue.(timeLabels := Push(withValue.timeLabels, timeLabel))
    else withValue
  }

  /**
   * After a point is added, its series ends with the new value and holds the
   * newest readings of that series; its oldest element was dropped only when
   * the series was already full.
   */
  lemma AddPointSlidesItsSeries(h: History, series: Series, value: real, timeLabel: string)
    requires Bounded(h)
    ensures var r := AddPoint(h, series, value, timeLabel);
      var before := if series == Temperature then h.temperatureData else h.humidityData;
      var after := if series == Temperature then r.temperatureData else r.humidityData;
      && after == Newest(before + [value], MaxDataPoints)
      && after[|after| - 1] == value
      && (|after| == |before| + 1 <==> |before| < MaxDataPoints)
  {
    if series == Temperature {
      PushKeepsNewest(h.temperatureData, value);
      assert AddPoint(h, series, value, timeLabel).temperatureData == Push(h.temperatureData, value);
    } else {
      PushKeepsNewest(h.humidityData, value);
      assert AddPoint(h, series, value, timeLabel).humidityData == Push(h.humidityData, value);
    }
  }

  /** The chart's arrays, updated in place by push and shift. */
  class ChartHistory {
    var temperatureData: seq<real>
    var humidityData: seq<real>
    var timeLabels: seq<string>

    function Model(): (h: History)
      reads this
    {
      History(temperatureData, humidityData, timeLabels)
    }

    ghost predicate Valid()
      reads this
    {
      Bounded(Model())
    }

    constructor ()
      ensures Valid() && Model() == History([], [], [])
    {
      temperatureData, humidityData, timeLabels := [], [], [];
    }

    method AddDataPoint(series: Series, value: real, timeLabel: string)
      requires Valid()
      modifies this
      ensures Valid()
      ensures Model() == AddPoint(old(Model()), series, value, timeLabel)
    {
      if series == Temperature {
        temperatureData := temperatureData + [value];
        if |temperatureData| > MaxDataPoints {
          temperatureData := temperatureData[1..];
        }
      } else {
        humidityData := humidityData + [value];
        if |humidityData| > MaxDataPoints {
          humidityData := humidityData[1..];
        }
      }
      if |temperatureData| == |humidityData| {
        timeLabels := timeLabels + [timeLabel];
        if |timeLabels| > MaxDataPoints {
          timeLabels := timeLabels[1..];
        }
      }
    }
  }
}
