/**
 * `DownloadItem`: one row of the download list, whose progress bar follows
 * the engine's progress reports. The bar's range is 0..100; like any
 * progress bar widget it ignores a value outside that range.
 */
module Downloads {
  import opened Optional

  const BarMaximum: int := 100

  /**
   * `int((received / total) * 100)` in exact arithmetic: the percentage,
   * truncated toward zero as Python's `int()` does.
   */
  function Percent(received: int, total: int): (p: int)
    requires 0 < total
    ensures 0 <= received ==> p * total <= received * 100 < (p + 1) * total
    ensures received < 0 ==> p <= 0
  {
    var scaled := received * 100;
    if 0 <= scaled then scaled / total else -((-scaled) / total)
  }

  /** `progress_bar.setValue(v)`: `bar` is the shown value, `None` before any was set. */
  function SetValue(bar: Option<int>, v: int): (r: Option<int>)
    ensures 0 <= v <= BarMaximum ==> r == Some(v)
    ensures !(0 <= v <= BarMaximum) ==> r == bar
  {
    if 0 <= v <= BarMaximum then Some(v) else bar
  }

  /**
   * `update_progress(received, total)`: an unknown or zero total leaves the
   * bar as it was (no division happens); otherwise the bar shows the
   * percentage when that is in range.
   */
  function AfterProgress(bar: Option<int>, received: int, total: int): (r: Option<int>)
    ensures total <= 0 ==> r == bar
    ensures 0 < total && 0 <= received <= total ==> r == Some(Percent(received, total))
    ensures r == bar || (r.Some? && 0 <= r.value <= BarMaximum)
  {
    if 0 < total then
      PercentInRange(received, total);
      SetValue(bar, Percent(received, total))
    else bar
  }

  /** Multiplying by a positive number keeps the order. */
  lemma ScaleMonotone(a: int, b: int, t: int)
    requires 0 < t && a <= b
    ensures a * t <= b * t
  {
  }

  /** Between nothing and everything received, the percentage lies in 0..100, reaching 100 only at the end. */
  lemma PercentInRange(received: int, total: int)
    requires 0 < total
    ensures 0 <= received <= total ==> 0 <= Percent(received, total) <= BarMaximum
    ensures 0 <= received < total ==> Percent(received, total) < BarMaximum
    ensures Percent(total, total) == BarMaximum
  {
    var p := Percent(received, total);
    if 0 <= received <= total {
      ScaleMonotone(received, total, 100);
      if BarMaximum < p { ScaleMonotone(BarMaximum + 1, p, total); }
      if p < 0 { ScaleMonotone(p + 1, 0, total); }
      if received < total && BarMaximum <= p {
        ScaleMonotone(received + 1, total, 100);
        ScaleMonotone(BarMaximum, p, total);
      }
    }
    var q := Percent(total, total);
    if q < BarMaximum { ScaleMonotone(q + 1, BarMaximum, total); }
    if BarMaximum < q { ScaleMonotone(BarMaximum + 1, q, total); }
  }

  /** More bytes received never shows a smaller percentage. */
  lemma PercentMonotone(fewer: int, more: int, total: int)
    requires 0 < total && 0 <= fewer <= more
    ensures Percent(fewer, total) <= Percent(more, total)
  {
  }

  class DownloadItem {
    /** The progress bar's value; `None` is the bar's initial reset state. */
    var progress: Option<int>

    constructor ()
      ensures progress == None
    {
      progress := None;
    }

    method UpdateProgress(received: int, total: int)
      modifies this
      ensures progress == AfterProgress(old(progress), received, total)
    {
      if 0 < total {
        progress := SetValue(progress, Percent(received, total));
      }
    }

    /** `download_finished`: the bar shows 100 whatever it showed before. */
    method DownloadFinished()
      modifies this
      ensures progress == Some(BarMaximum)
    {
      progress := SetValue(progress, BarMaximum);
    }
  }
}
