/** The mask snapshot behind global statistics: taken when a frame is brought in, used again by
    every pass that only filters or recolours, dropped when its input disappears. */
module MaskSnapshot {
  import opened GlobalStats
  import opened Measure
  import opened Pixels
  import opened Sources
  import opened Wrappers

  datatype Snap = Snap(sized: bool,
                       nx: nat,
                       ny: nat,
                       refresh: bool,
                       input: Status,
                       selection: seq<bool>,
                       stats: Stats)

  const FRESH := Snap(false, 0, 0, false, Unavailable, [], BLANK)

  function AtLeastOnePixel(n: nat): nat {
    if n == 0 then 1 else n
  }

  /** The selection covers the frame whenever a statistics pass would read it. */
  predicate Usable(s: Snap) {
    s.stats.enabled && !s.refresh && s.input.Valid? && s.stats.useMask ==> |s.selection| == s.nx * s.ny
  }

  // -------------------------------------------------------------------------- the regions

  function SetMode(s: Snap, enabled: bool, useMask: bool): Snap {
    s.(stats := BLANK.(enabled := enabled, useMask := useMask), refresh := enabled)
  }

  /** What happens to the snapshot while the unique lock is held. */
  datatype Intake = Abandoned(s: Snap) | Ready(s: Snap)

  function Resized(s: Snap, nx: nat, ny: nat): Snap {
    s.(sized := true, nx := AtLeastOnePixel(nx), ny := AtLeastOnePixel(ny))
  }

  function Snapshot(s: Snap, images: Images): Snap {
    var input := InputStatus(images, s.sized, s.nx, s.ny, s.stats.useMask);
    s.(input := input, selection := if input.Valid? && s.stats.useMask then Selected(images.mask.value) else [])
  }

  /** The frame made to fit a valid main image. */
  function Fitted(s: Snap, images: Images): Snap
    requires ImageValid(images.main)
  {
    if Matches(images.main, s.nx, s.ny) && s.sized then s
    else Resized(s, images.main.value.nx, images.main.value.ny)
  }

  function Loaded(s: Snap, images: Images): Snap {
    if s.stats.enabled then Snapshot(s, images).(refresh := false) else s
  }

  function TakeIn(s: Snap, images: Images): Intake {
    if !ImageValid(images.main) then Abandoned(s)
    else
      var r := Fitted(s, images);
      if !Matches(images.main, r.nx, r.ny) then Abandoned(r) else Ready(Loaded(r, images))
  }

  /** The statistics pass over the frame as shown; None when it would read past the selection. */
  function Calculate(s: Snap, shown: seq<Pixel>, median: seq<real> -> real): Option<Snap> {
    var useMask := s.stats.useMask;
    if s.input.Valid? && useMask && |s.selection| < |shown| then None
    else
      var values := if s.input.Valid? then Values(shown, s.selection, useMask, |shown|) else [];
      Some(s.(stats := Published(useMask, s.input, values, median)))
  }

  /** A whole image pass, with the frame that calibration and filters leave to be shown. */
  function Change(s: Snap, images: Images, newdata: bool, shown: seq<Pixel>, median: seq<real> -> real): Option<Snap> {
    var intake := if newdata || s.refresh then TakeIn(s, images) else Ready(s);
    if intake.Abandoned? || !intake.s.sized then Some(intake.s)
    else if intake.s.stats.enabled then Calculate(intake.s, shown, median)
    else Some(intake.s)
  }

  /** The periodic check: it asks for a refresh, or withdraws measurements whose input is gone. */
  function Check(s: Snap, images: Images): Snap {
    if !s.stats.enabled then s
    else
      var status := InputStatus(images, s.sized, s.nx, s.ny, s.stats.useMask);
      if status.Valid? then s.(refresh := s.input != status || s.refresh)
      else s.(input := status, selection := [], stats := Cleared(true, s.stats.useMask, status))
  }

  predicate RefreshDue(s: Snap, images: Images) {
    && s.stats.enabled
    && InputStatus(images, s.sized, s.nx, s.ny, s.stats.useMask).Valid?
    && (!s.input.Valid? || s.refresh)
  }

  // -------------------------------------------------------------------------- the machine

  datatype Action =
    | Mode(enabled: bool, useMask: bool)
    | Pass(newdata: bool, images: Images, shown: seq<Pixel>)
    | Recheck(images: Images)

  /** The frame a pass will show has as many pixels as the frame it works on. */
  predicate Possible(s: Snap, a: Action) {
    match a
    case Mode(_, _) => true
    case Pass(newdata, images, shown) =>
      var intake := if newdata || s.refresh then TakeIn(s, images) else Ready(s);
      Sized(images) && |shown| == intake.s.nx * intake.s.ny
    case Recheck(images) => Sized(images)
  }

  function Next(s: Snap, a: Action, median: seq<real> -> real): Option<Snap> {
    match a
    case Mode(enabled, useMask) => Some(SetMode(s, enabled, useMask))
    case Pass(newdata, images, shown) => Change(s, images, newdata, shown, median)
    case Recheck(images) => Some(Check(s, images))
  }

  /** The main image is valid yet has no pixels. */
  predicate Hollow(images: Images) {
    ImageValid(images.main) && (images.main.value.nx == 0 || images.main.value.ny == 0)
  }

  /** Bringing in a main image without pixels replaces the frame by one that then stays empty. */
  predicate Outsizes(s: Snap, images: Images) {
    && Hollow(images)
    && !(s.sized && s.nx == AtLeastOnePixel(images.main.value.nx) && s.ny == AtLeastOnePixel(images.main.value.ny))
  }

  /** The one way to spoil a usable snapshot, told from the state and the input alone: bringing in
      a main image without pixels resizes the frame to at least one pixel and then gives up, which
      leaves in force a selection taken for a frame of another size. */
  predicate Spoils(s: Snap, a: Action) {
    && a.Pass? && a.newdata && !s.refresh && Hollow(a.images)
    && s.stats.enabled && s.stats.useMask && s.input.Valid?
    && |s.selection| != AtLeastOnePixel(a.images.main.value.nx) * AtLeastOnePixel(a.images.main.value.ny)
  }

  /** What holds between passes. */
  predicate Kept(s: Snap) {
    && Usable(s) && Coherent(s.stats)
    && (s.sized <==> s.nx > 0 && s.ny > 0)
    && (s.refresh ==> s.stats.enabled)
  }

  lemma IntakeKeepsUsable(s: Snap, images: Images, newdata: bool)
    requires Kept(s) && Sized(images)
    ensures var intake := if newdata || s.refresh then TakeIn(s, images) else Ready(s);
            && (intake.s.sized <==> intake.s.nx > 0 && intake.s.ny > 0)
            && intake.s.stats == s.stats
            && (intake.s.refresh ==> s.refresh)
            && (intake.Ready? ==>
                  Usable(intake.s) && (intake.s.stats.enabled ==> !intake.s.refresh)
                  && !Spoils(s, Pass(newdata, images, [])))
            && (intake.Abandoned? ==>
                  intake.s.selection == s.selection && intake.s.refresh == s.refresh && intake.s.input == s.input
                  && (Usable(intake.s) <==> !Spoils(s, Pass(newdata, images, []))))
  {
  }

  /** What a pass takes in from a usable snapshot can be read, and what it leaves is usable under
      exactly the stated condition. */
  lemma ChangeKeepsUsable(s: Snap, images: Images, newdata: bool, shown: seq<Pixel>, median: seq<real> -> real)
    requires Kept(s) && Sized(images)
    ensures var intake := if newdata || s.refresh then TakeIn(s, images) else Ready(s);
            intake.Ready? && intake.s.stats.enabled && intake.s.input.Valid? && intake.s.stats.useMask ==>
              |intake.s.selection| >= intake.s.nx * intake.s.ny
    ensures Change(s, images, newdata, shown, median).Some? ==>
              (Usable(Change(s, images, newdata, shown, median).value) <==> !Spoils(s, Pass(newdata, images, shown)))
  {
    hide TakeIn;
    IntakeKeepsUsable(s, images, newdata);
  }

  /** A step from a usable snapshot reads nothing out of bounds, and leaves a usable snapshot if and
      only if it does not bring in a hollow image over a selection of another size. */
  lemma StepKeepsUsable(s: Snap, a: Action, median: seq<real> -> real)
    requires Kept(s) && Possible(s, a) && IsMedian(median)
    ensures Next(s, a, median).Some?
    ensures Usable(Next(s, a, median).value) <==> !Spoils(s, a)
    ensures !Spoils(s, a) ==> Kept(Next(s, a, median).value)
  {
    match a
    case Mode(_, _) =>
    case Recheck(images) =>
    case Pass(newdata, images, shown) =>
      IntakeKeepsUsable(s, images, newdata);
      var intake := if newdata || s.refresh then TakeIn(s, images) else Ready(s);
      if intake.Ready? && intake.s.sized && intake.s.stats.enabled {
        var useMask := intake.s.stats.useMask;
        var values := if intake.s.input.Valid? then Values(shown, intake.s.selection, useMask, |shown|) else [];
        PublishedIsCoherent(useMask, intake.s.input, values, median);
      }
  }

  // ------------------------------------------------------------------------- what is published

  /** The published statistics are those of the frame shown: with a valid input they measure exactly
      its finite pixels, under a mask those that the selection keeps; otherwise they give the reason. */
  ghost predicate Exact(s: Snap, shown: seq<Pixel>, median: seq<real> -> real) {
    var pool := set n: nat
      | n < |shown| && shown[n].Fin? && (s.stats.useMask ==> n < |s.selection| && s.selection[n]);
    && s.stats.status == (if !s.input.Valid? then s.input else if pool == {} then Empty else Valid)
    && s.stats.count == (if s.input.Valid? then |pool| else 0)
    && (s.input.Valid? && pool != {} ==>
          Measures(s.stats.min, s.stats.max, s.stats.mean, s.stats.median, shown, pool, median))
  }

  /** The snapshot is that of the images: the input is valid exactly if the mask, when one is used,
      is valid and covers the main image, and then the selection is where the mask is one. */
  ghost predicate Mirrors(s: Snap, images: Images) {
    && !s.refresh && HasPixels(images.main) && s.nx == images.main.value.nx && s.ny == images.main.value.ny
    && (s.input.Valid? <==>
          (s.stats.useMask ==> ImageValid(images.mask)
                               && images.mask.value.nx == s.nx && images.mask.value.ny == s.ny))
    && (s.input.Valid? && s.stats.useMask ==>
          && |s.selection| == s.nx * s.ny == |images.mask.value.pixels|
          && forall n | 0 <= n < |s.selection| :: s.selection[n] <==> images.mask.value.pixels[n] == Fin(1.0))
  }

  lemma CalculateIsExact(s: Snap, shown: seq<Pixel>, median: seq<real> -> real)
    requires Calculate(s, shown, median).Some?
    ensures var r := Calculate(s, shown, median).value;
            && Exact(r, shown, median)
            && r == s.(stats := r.stats) && r.stats.enabled && r.stats.useMask == s.stats.useMask
  {
    hide Measures;
    var r := Calculate(s, shown, median).value;
    if s.input.Valid? {
      PublishedMeasuresSelection(shown, s.selection, s.stats.useMask, median);
      assert Pool(shown, s.selection, s.stats.useMask) == set n: nat
        | n < |shown| && shown[n].Fin? && (r.stats.useMask ==> n < |r.selection| && r.selection[n]);
    }
  }

  lemma LoadedMirrors(s: Snap, images: Images)
    requires Sized(images) && TakeIn(s, images).Ready? && s.stats.enabled
    requires s.sized <==> s.nx > 0 && s.ny > 0
    ensures Mirrors(TakeIn(s, images).s, images)
  {
  }

  /** After a pass that shows something while statistics are on, they are exact for what it shows; and
      if it brought in a frame, for the present images and their mask. */
  lemma ChangeIsExact(s: Snap, images: Images, newdata: bool, shown: seq<Pixel>, median: seq<real> -> real)
    requires Kept(s) && Sized(images) && s.stats.enabled
    requires if newdata || s.refresh then HasPixels(images.main) else s.sized
    requires Change(s, images, newdata, shown, median).Some?
    ensures var r := Change(s, images, newdata, shown, median).value;
            && Exact(r, shown, median) && r.stats.useMask == s.stats.useMask
            && (newdata || s.refresh ==> Mirrors(r, images))
            && (!newdata && !s.refresh ==> r.selection == s.selection && r.input == s.input)
  {
    hide Exact, Calculate;
    if newdata || s.refresh {
      LoadedMirrors(s, images);
      CalculateIsExact(TakeIn(s, images).s, shown, median);
    } else {
      CalculateIsExact(s, shown, median);
    }
  }

  /** A check that finds the input gone withdraws the measurements and says why; one that finds it
      present again, or finds a refresh due, asks for a pass; and otherwise it changes nothing. A mode
      change withdraws the measurements and asks for a pass if statistics are on. */
  lemma ChecksAndModes(s: Snap, images: Images, enabled: bool, useMask: bool)
    requires s.stats.enabled
    ensures var input := InputStatus(images, s.sized, s.nx, s.ny, s.stats.useMask);
            var r := Check(s, images);
            && r.stats.enabled && r.stats.useMask == s.stats.useMask
            && (!input.Valid? ==> r.stats.status == input && r.stats.count == 0 && r.input == input
                                  && !RefreshDue(s, images))
            && (input.Valid? ==> r.stats == s.stats && r.input == s.input && r.selection == s.selection
                                 && (r.refresh <==> s.refresh || !s.input.Valid?)
                                 && (RefreshDue(s, images) <==> r.refresh))
    ensures var r := SetMode(s, enabled, useMask);
            && r.stats.enabled == enabled && r.stats.useMask == useMask && r.refresh == enabled
            && r.stats.count == 0 && r.stats.status.Unavailable?
            && (r.nx, r.ny, r.input, r.selection) == (s.nx, s.ny, s.input, s.selection)
  {
  }

  // -------------------------------------------------------------------------------- runs

  /** Each step is possible, for as long as the run is defined. */
  predicate Legal(s: Snap, actions: seq<Action>, median: seq<real> -> real)
    decreases |actions|
  {
    actions == [] || (Possible(s, actions[0])
                      && (Next(s, actions[0], median).Some? ==>
                            Legal(Next(s, actions[0], median).value, actions[1..], median)))
  }

  function Run(s: Snap, actions: seq<Action>, median: seq<real> -> real): Option<Snap>
    decreases |actions|
  {
    if actions == [] then Some(s)
    else
      var next := Next(s, actions[0], median);
      if next.None? then None else Run(next.value, actions[1..], median)
  }

  /** No step of the run spoils the snapshot it finds. */
  predicate Unspoiled(s: Snap, actions: seq<Action>, median: seq<real> -> real)
    decreases |actions|
  {
    actions == [] || (!Spoils(s, actions[0])
                      && (Next(s, actions[0], median).Some? ==>
                            Unspoiled(Next(s, actions[0], median).value, actions[1..], median)))
  }

  /** Over any run of mode changes, passes with any images, filter-only passes and checks in which
      no step spoils the snapshot, no pass reads past the selection, the selection stays usable and
      the published statistics stay coherent. */
  lemma {:induction false} SnapshotStaysUsable(s: Snap, actions: seq<Action>, median: seq<real> -> real)
    requires Kept(s) && Legal(s, actions, median) && IsMedian(median) && Unspoiled(s, actions, median)
    ensures Run(s, actions, median).Some? && Kept(Run(s, actions, median).value)
    decreases |actions|
  {
    if actions != [] {
      StepKeepsUsable(s, actions[0], median);
      SnapshotStaysUsable(Next(s, actions[0], median).value, actions[1..], median);
    }
  }

  predicate Solid(a: Action) {
    a.Pass? ==> !Hollow(a.images)
  }

  /** In particular, no run in which every valid main image has pixels can spoil it. */
  lemma {:induction false} SolidImagesNeverSpoil(s: Snap, actions: seq<Action>, median: seq<real> -> real)
    requires forall a | a in actions :: Solid(a)
    ensures Unspoiled(s, actions, median)
    decreases |actions|
  {
    if actions != [] {
      assert Solid(actions[0]);
      if Next(s, actions[0], median).Some? {
        SolidImagesNeverSpoil(Next(s, actions[0], median).value, actions[1..], median);
      }
    }
  }

  /** In particular from the start, when nothing has been shown yet. */
  lemma SnapshotFromTheStart(actions: seq<Action>, median: seq<real> -> real)
    requires Legal(FRESH, actions, median) && IsMedian(median)
    requires forall a | a in actions :: Solid(a)
    ensures Run(FRESH, actions, median).Some? && Kept(Run(FRESH, actions, median).value)
  {
    assert Kept(FRESH);
    SolidImagesNeverSpoil(FRESH, actions, median);
    SnapshotStaysUsable(FRESH, actions, median);
  }

  // ------------------------------------------------------------------ the failing family

  /** A two-by-two source whose pixels are all one. */
  const SQUARE := Source(2, 2, true, [Fin(1.0), Fin(1.0), Fin(1.0), Fin(1.0)])

  /** A source that claims ten columns of no rows. */
  const HOLLOW := Source(10, 0, true, [])

  const BLACK: seq<Pixel> := seq(10, _ => Fin(0.0))

  /** Enable masked statistics, show a frame, bring in a hollow image (say because dark subtraction
      was toggled), then change only a filter: the last pass reads past the selection. */
  lemma HollowImageSpoilsSnapshot(median: seq<real> -> real)
    requires IsMedian(median)
    ensures var square := Images(Some(SQUARE), None, Some(SQUARE), None);
            var run := [Mode(true, true),
                        Pass(true, square, SQUARE.pixels),
                        Pass(true, square.(main := Some(HOLLOW)), BLACK),
                        Pass(false, square.(main := Some(HOLLOW)), BLACK)];
            Legal(FRESH, run, median) && Run(FRESH, run, median).None?
  {
    var square := Images(Some(SQUARE), None, Some(SQUARE), None);
    var a1 := Mode(true, true);
    var a2 := Pass(true, square, SQUARE.pixels);
    var a3 := Pass(true, square.(main := Some(HOLLOW)), BLACK);
    var a4 := Pass(false, square.(main := Some(HOLLOW)), BLACK);
    var s1 := Next(FRESH, a1, median).value;
    var s2 := Next(s1, a2, median).value;
    assert s2.input.Valid? && s2.selection == Selected(SQUARE) && s2.stats.enabled && s2.stats.useMask && !s2.refresh;
    var s3 := Next(s2, a3, median).value;
    assert s3.nx == 10 && s3.ny == 1 && s3.selection == s2.selection;
    assert Next(s3, a4, median).None?;
    var run := [a1, a2, a3, a4];
    assert run[1..] == [a2, a3, a4] && run[1..][1..] == [a3, a4] && run[1..][1..][1..] == [a4];
    assert Run(s3, [a4], median).None? && Legal(s3, [a4], median);
    assert Run(s2, [a3, a4], median).None? && Legal(s2, [a3, a4], median);
    assert Run(s1, [a2, a3, a4], median).None? && Legal(s1, [a2, a3, a4], median);
  }
}
