/** The global-statistics snapshot shared by the image backend and the remote client. */
module GlobalStats {
  import opened Pixels
  import opened Wrappers

  datatype Status =
    | Unavailable
    | Valid
    | NoImage
    | NoMask
    | SizeMismatch
    | Empty
    | Unsupported

  datatype Stats = Stats(enabled: bool,
                         useMask: bool,
                         status: Status,
                         count: nat,
                         min: real,
                         max: real,
                         mean: real,
                         median: real)

  /** The default-constructed snapshot. */
  const BLANK := Stats(false, true, Unavailable, 0, 0.0, 0.0, 0.0, 0.0)

  /** A blank snapshot that keeps the two mode switches. */
  function Cleared(enabled: bool, useMask: bool, status: Status): Stats {
    BLANK.(enabled := enabled, useMask := useMask, status := status)
  }

  /** Measurements are present exactly when the status says so. */
  predicate Coherent(s: Stats) {
    && (s.status.Valid? <==> s.count > 0)
    && (s.count == 0 ==> s.min == s.max == s.mean == s.median == 0.0)
  }

  /** The statistics message carried by an image reply; `status` is None for an unknown value. */
  datatype WireStats = WireStats(enabled: bool,
                                 useMask: bool,
                                 status: Option<Status>,
                                 count: nat,
                                 min: Pixel,
                                 max: Pixel,
                                 mean: Pixel,
                                 median: Pixel)

  /** What the client keeps of the statistics in an image reply. */
  function Received(wire: Option<WireStats>): Stats {
    match wire
    case None => BLANK.(status := Unsupported)
    case Some(w) =>
      var s := Cleared(w.enabled, w.useMask, if w.status.Some? then w.status.value else Unavailable);
      if w.enabled && s.status.Valid? && w.count > 0 && w.min.Fin? && w.max.Fin? && w.mean.Fin? && w.median.Fin? then
        s.(count := w.count, min := w.min.v, max := w.max.v, mean := w.mean.v, median := w.median.v)
      else if s.status.Valid? then s.(status := Unavailable)
      else s
  }

  /** A message whose measurements can be taken over. */
  predicate Measured(w: WireStats) {
    && w.enabled && w.status == Some(Valid) && w.count > 0
    && w.min.Fin? && w.max.Fin? && w.mean.Fin? && w.median.Fin?
  }

  /** A snapshot shows a message: its modes, and its measurements if it has any to take
      over, or else the reason it gives for having none. */
  predicate Shows(shown: Stats, w: WireStats) {
    && shown.enabled == w.enabled && shown.useMask == w.useMask
    && (if Measured(w) then
          && shown.status.Valid? && shown.count == w.count
          && w.min == Fin(shown.min) && w.max == Fin(shown.max)
          && w.mean == Fin(shown.mean) && w.median == Fin(shown.median)
        else
          && shown.count == 0
          && shown.status == if w.status.Some? && !w.status.value.Valid? then w.status.value else Unavailable)
  }

  /** Whatever a server sends, the client never shows a count without a valid status or the reverse; a
      measurement is kept if and only if the message is enabled, valid, not empty and finite
      throughout, and then it is the server's own; otherwise the client shows the server's reason. */
  lemma ReceivedIsCoherent(wire: Option<WireStats>)
    ensures Coherent(Received(wire))
    ensures Received(wire).status.Valid? <==> wire.Some? && Measured(wire.value)
    ensures wire.Some? ==> Shows(Received(wire), wire.value)
    ensures wire.None? ==> Received(wire).status.Unsupported?
  {
  }
}
