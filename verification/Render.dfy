/** The series that `render` hands to the chart pipeline for the network card. */
module Render {
  import opened Wrappers
  import opened TelemetryStore
  import opened Traffic
  import opened Timeline

  function TrafficSeries(points: seq<Sample>, side: Side, direction: Direction): seq<Item> {
    seq(|points|, i requires 0 <= i < |points| =>
      Item(points[i].time,
           i > 0 && !Continuous(Some(points[i - 1]), points[i]),
           Rate(if i > 0 then Some(points[i - 1]) else None, points[i], side, direction)))
  }

  /** The items of the series in the fields of the samples: a break stands where time or a known uptime did not move
      on, and the value is the rate since the sample before. */
  lemma SeriesFromFields(points: seq<Sample>, side: Side, direction: Direction, i: nat)
    requires i < |points|
    ensures |TrafficSeries(points, side, direction)| == |points|
    ensures var item := TrafficSeries(points, side, direction)[i];
            && item.time == points[i].time
            && (item.breakBefore <==>
                  i > 0 && (points[i].time <= points[i - 1].time
                            || (points[i - 1].uptime.Some? && points[i].uptime.Some?
                                && points[i].uptime.value < points[i - 1].uptime.value)))
            && (if i == 0 then item.value.None? else
                  RateOf(item.value, points[i - 1], points[i], Counter(points[i - 1], side, direction),
                         Counter(points[i], side, direction), Device(points[i - 1], side), Device(points[i], side)))
  {
    if i > 0 { RateFromCounters(points[i - 1], points[i], side, direction); }
  }

  /** A drawn traffic line runs only over counted links: between its ends every pair of neighbouring
      samples has both counters, moving time, no reboot, no counter reset and one device. */
  lemma DrawnTrafficIsCounted(points: seq<Sample>, side: Side, direction: Direction, c: Cadence, first: nat, last: nat)
    requires first <= last < |points| && Gapless(c, TrafficSeries(points, side, direction), first, last)
    ensures forall k :: first <= k < last ==> Link(points[k], points[k + 1], side, direction)
    ensures forall k :: first <= k < last ==> Continuous(Some(points[k]), points[k + 1])
    ensures 0 < first && first <= last ==> Link(points[first - 1], points[first], side, direction)
  {
    var data := TrafficSeries(points, side, direction);
    forall k | 0 < k <= last && first <= k ensures Link(points[k - 1], points[k], side, direction) {
      assert data[k].value.Some?;
      RateIffLink(points[k - 1], points[k], side, direction);
    }
    forall k | first <= k < last
      ensures Link(points[k], points[k + 1], side, direction) && Continuous(Some(points[k]), points[k + 1])
    {
      assert Link(points[k + 1 - 1], points[k + 1], side, direction);
      assert Joined(c, data[k], data[k + 1]);
    }
  }
}
