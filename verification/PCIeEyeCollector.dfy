/** The scrape side of the PCIe phase (pcie_eye_collector.go). */
module PCIeEyeCollector {
  import opened Wrappers
  import opened Model
  import opened Journal
  import opened Metrics
  import opened SnapshotStore
  import opened Collector

  method CollectFOM(ch: MetricChannel, lanes: seq<LaneValue>, labels: seq<string>, stage: string)
    modifies ch
    ensures ch.sent == old(ch.sent) + Group(labels, PCIeFOM, LabelledSamples(lanes, stage))
  {
    SendLanesWithLabel(ch, PCIeFOM, lanes, labels, stage);
  }

  method SendPCIeSelf(ch: MetricChannel, s: Snapshot<PCIeEye>, labels: seq<string>)
    modifies ch
    ensures ch.sent == old(ch.sent) + Emit(labels, f => PCIeSamples(s, f), PCIE_SELF_FAMILIES)
  {
    hide UpTo, Emit;
    ghost var before, series: Series, all := ch.sent, (f => PCIeSamples(s, f)), PCIE_SELF_FAMILIES;
    var up := 0.0;
    if s.lastError.None? && s.lastSuccess.Some? { up := 1.0; }
    assert labels + [] == labels;
    Start(before, labels, series, all);
    Next(before, ch.sent, labels, series, all, 0, UpSamples(s));
    ch.Send(Metric(PCIeUp, labels, up));
    assert ch.sent == before + Group(labels, PCIeUp, UpSamples(s));
    ghost var one := ch.sent;
    Next(before, one, labels, series, all, 1, [Sample([], Seconds(s.lastDuration))]);
    ch.Send(Metric(PCIeDuration, labels, Seconds(s.lastDuration)));
    assert ch.sent == one + Group(labels, PCIeDuration, [Sample([], Seconds(s.lastDuration))]);
    ghost var two := ch.sent;
    Next(before, two, labels, series, all, 2, TimestampSamples(s.lastSuccess));
    if s.lastSuccess.Some? {
      ch.Send(Metric(PCIeLastSuccess, labels, Seconds(s.lastSuccess.value)));
    }
    assert ch.sent == two + Group(labels, PCIeLastSuccess, TimestampSamples(s.lastSuccess));
    Finish(before, ch.sent, labels, series, all);
  }

  /** One iteration of the loop over the set. */
  method CollectSnapshot(ch: MetricChannel, s: Snapshot<PCIeEye>, now: Time, staleAfter: int)
    modifies ch
    ensures ch.sent == old(ch.sent) + PCIeMetrics(s, now, staleAfter)
  {
    hide LabelledSamples, Emit;
    var labels := [s.target.device, s.target.pciAddr];
    SendPCIeSelf(ch, s, labels);
    if Stale(s, now, staleAfter) { return; }
    ghost var self := ch.sent;
    ghost var series: Series := f => PCIeSamples(s, f);
    ghost var initial, last := LabelledSamples(s.data.initialFOM, "initial"), LabelledSamples(s.data.lastFOM, "last");
    CollectFOM(ch, s.data.initialFOM, labels, "initial");
    CollectFOM(ch, s.data.lastFOM, labels, "last");
    GroupConcat(labels, PCIeFOM, initial, last);
    assert ch.sent == self + Group(labels, PCIeFOM, initial + last);
    EmitSnoc(labels, series, PCIE_SELF_FAMILIES, PCIeFOM);
  }

  class PCIeEyeCollector {
    const source: Store<PCIeEye>
    const staleAfter: int

    constructor (source: Store<PCIeEye>, staleAfter: int)
      ensures this.source == source && this.staleAfter == staleAfter
    {
      this.source, this.staleAfter := source, staleAfter;
    }

    method Collect(ch: MetricChannel, now: Time) returns (ghost order: seq<string>)
      requires source.Valid()
      modifies ch
      ensures source.Loaded().None? ==> ch.sent == old(ch.sent)
      ensures source.Loaded().Some? ==>
                && Iterates(order, source.Loaded().value)
                && ch.sent == old(ch.sent)
                              + Scrape(source.Loaded().value, order, s => PCIeMetrics(s, now, staleAfter))
    {
      hide PCIeMetrics, Scrape;
      order := [];
      ScrapeNothing<PCIeEye>(s => PCIeMetrics(s, now, staleAfter));
      var loaded := source.Load();
      if loaded == null { return; }
      ghost var devices := source.Loaded().value;
      if loaded.byDevice == null { return; }
      var entries := loaded.byDevice.entries;
      var left := entries.Keys;
      while left != {}
        invariant Midway(order, left, entries)
        invariant ch.sent == old(ch.sent) + Scrape(entries, order, s => PCIeMetrics(s, now, staleAfter))
        decreases left
      {
        var device :| device in left;
        CollectSnapshot(ch, entries[device], now, staleAfter);
        ScrapeSnoc(entries, order, s => PCIeMetrics(s, now, staleAfter), device);
        MidwayStep(order, left, entries, device);
        left := left - {device};
        order := order + [device];
      }
    }
  }
}
