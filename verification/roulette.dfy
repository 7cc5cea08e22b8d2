/** The lunch roulette component's state and the handlers that change it: editing the menu
    list, starting a spin, and the animation tick that drives and settles it. */
module Roulette {
  import opened JsText
  import opened MenuList
  import opened Wheel
  import opened Resolver
  import opened SpinMath

  datatype Option<T> = None | Some(value: T)

  /** A scheduled `animate` callback: what it closed over when its spin started (the rotation,
      the menu list and the duration of that render). */
  datatype SpinFrame = SpinFrame(from: real, menus: seq<string>, spinDuration: int)

  /** The spin duration in milliseconds, for a duration chosen in seconds. */
  function DurationMs(spinDuration: int): (ms: real)
    requires spinDuration >= 2
    ensures ms >= 2000.0
  {
    (spinDuration * 1000) as real
  }

  /** What must hold of a spin in flight: its closure, its target, its start time and the
      rotation last written, given the timestamp of the last frame. */
  ghost predicate SpinInFlight(f: SpinFrame, endRotation: Option<real>, rotation: real,
                               startTime: Option<real>, lastTimestamp: real)
  {
    |f.menus| >= MinMenus && 2 <= f.spinDuration <= 10 && 0.0 <= f.from
    && endRotation.Some? && 720.0 <= endRotation.value - f.from < 1800.0
    && f.from <= rotation <= endRotation.value
    && (startTime.None? ==> rotation == f.from)
    && (startTime.Some? ==>
          startTime.value <= lastTimestamp
          && (startTime.value == 0.0 ==> lastTimestamp == 0.0)
          && Progress(lastTimestamp - startTime.value, DurationMs(f.spinDuration)) < 1.0
          && rotation == RotationAt(f.from, endRotation.value, lastTimestamp - startTime.value,
                                    DurationMs(f.spinDuration)))
  }

  /** A frame before the duration is up keeps the spin in flight and moves the wheel forward. */
  lemma AdvanceStep(f: SpinFrame, end: real, rotation: real, startTime: Option<real>,
                    lastTimestamp: real, start: real, timestamp: real)
    requires SpinInFlight(f, Some(end), rotation, startTime, lastTimestamp)
    requires start == if startTime.None? || startTime.value == 0.0 then timestamp else startTime.value
    requires startTime.Some? ==> timestamp >= lastTimestamp
    requires Progress(timestamp - start, DurationMs(f.spinDuration)) < 1.0
    ensures var r := RotationAt(f.from, end, timestamp - start, DurationMs(f.spinDuration));
      SpinInFlight(f, Some(end), r, Some(start), timestamp) && rotation <= r
  {
    var durationMs := DurationMs(f.spinDuration);
    RotationBetween(f.from, end, timestamp - start, durationMs);
    if startTime.Some? && startTime.value != 0.0 {
      RotationMonotone(f.from, end, lastTimestamp - startTime.value, timestamp - start, durationMs);
    }
  }

  class LunchRoulette {
    var menus: seq<string>
    var customMenu: string
    var rotation: real
    var isSpinning: bool
    var selectedMenu: Option<string>
    var spinDuration: int
    /** `startTimeRef`: the timestamp of the spin's first frame, once there was one. */
    var startTime: Option<real>
    /** `endRotationRef`: the target of the latest spin. */
    var endRotation: Option<real>
    /** `animationRef`: the animation frame scheduled for the spin in flight. */
    var pending: Option<SpinFrame>
    /** The timestamp of the latest frame of the spin in flight. */
    ghost var lastTimestamp: real

    ghost predicate Valid()
      reads this`rotation, this`spinDuration, this`isSpinning, this`selectedMenu
      reads this`startTime, this`endRotation, this`pending, this`lastTimestamp
    {
      0.0 <= rotation && 2 <= spinDuration <= 10
      && (isSpinning <==> pending.Some?)
      && (isSpinning ==> selectedMenu.None?)
      && (pending.None? ==> startTime.None?)
      && (pending.Some? ==> SpinInFlight(pending.value, endRotation, rotation, startTime, lastTimestamp))
    }

    /** The component as first rendered, with the list read from storage (or the default). */
    constructor (initialMenus: seq<string>)
      ensures Valid()
      ensures menus == initialMenus && customMenu == "" && rotation == 0.0 && !isSpinning
      ensures selectedMenu.None? && spinDuration == 5 && startTime.None? && endRotation.None?
    {
      menus := initialMenus;
      customMenu := "";
      rotation := 0.0;
      isSpinning := false;
      selectedMenu := None;
      spinDuration := 5;
      startTime := None;
      endRotation := None;
      pending := None;
    }

    /** Typing in the text box. */
    method SetCustomMenu(text: string)
      modifies this`customMenu
      ensures customMenu == text
    {
      customMenu := text;
    }

    /** Moving the duration slider, whose range is 2 to 10 seconds. */
    method SetSpinDuration(seconds: int)
      requires Valid() && 2 <= seconds <= 10
      modifies this`spinDuration
      ensures Valid() && spinDuration == seconds
    {
      spinDuration := seconds;
    }

    /** `addMenu`: appends the trimmed text box unless it is blank or already listed, and
        clears the text box when it does. */
    method AddMenu()
      requires Valid()
      modifies this`menus, this`customMenu
      ensures Valid()
      ensures menus == Added(old(menus), old(customMenu))
      ensures customMenu == if AddAccepted(old(menus), old(customMenu)) then "" else old(customMenu)
    {
      var trimmed := Trim(customMenu);
      if trimmed != "" && trimmed !in menus {
        menus := menus + [trimmed];
        customMenu := "";
      }
    }

    /** `removeMenu`: refuses (with a warning) at two items or fewer, otherwise splices out the
        item at `index`. */
    method RemoveMenu(index: int) returns (warned: bool)
      requires Valid()
      modifies this`menus
      ensures Valid()
      ensures warned <==> |old(menus)| <= MinMenus
      ensures menus == Removed(old(menus), index)
    {
      if |menus| <= MinMenus {
        return true;
      }
      var newMenus := menus;
      newMenus := SpliceOne(newMenus, index);
      menus := newMenus;
      return false;
    }

    /** A tap on sector `index`: removes its item unless a spin is running. */
    method ClickSector(index: int) returns (warned: bool)
      requires Valid()
      modifies this`menus
      ensures Valid()
      ensures warned <==> !isSpinning && |old(menus)| <= MinMenus
      ensures menus == if isSpinning then old(menus) else Removed(old(menus), index)
    {
      warned := false;
      if !isSpinning {
        warned := RemoveMenu(index);
      }
    }

    /** `spinRoulette` with `u` the value of `Math.random()`: ignored while spinning or with
        fewer than two items; otherwise clears the result, fixes the target between two and
        five turns ahead and schedules the first frame. */
    method SpinRoulette(u: real)
      requires Valid() && 0.0 <= u < 1.0
      modifies this
      ensures Valid()
      ensures menus == old(menus) && customMenu == old(customMenu) && rotation == old(rotation)
      ensures spinDuration == old(spinDuration) && startTime == old(startTime)
      ensures old(isSpinning) || |old(menus)| < MinMenus ==>
        isSpinning == old(isSpinning) && selectedMenu == old(selectedMenu)
        && endRotation == old(endRotation) && pending == old(pending)
      ensures !old(isSpinning) && |old(menus)| >= MinMenus ==>
        isSpinning && selectedMenu.None?
        && endRotation == Some(SpinTarget(old(rotation), u))
        && pending == Some(SpinFrame(old(rotation), old(menus), old(spinDuration)))
    {
      if isSpinning || |menus| < MinMenus {
        return;
      }
      isSpinning := true;
      selectedMenu := None;
      var additionalRotation := 720.0 + 1080.0 * u;
      endRotation := Some(rotation + additionalRotation);
      pending := Some(SpinFrame(rotation, menus, spinDuration));
    }

    /** The `animate` callback run at `timestamp`, if a frame is scheduled. Before the duration
        is up it writes the eased rotation and schedules the next frame; once it is up it snaps
        the rotation to the target, stops spinning and picks the item under the pointer from
        the list the spin started with. */
    method Tick(timestamp: real)
      requires Valid()
      requires pending.Some? && startTime.Some? ==> timestamp >= lastTimestamp
      modifies this
      ensures Valid()
      ensures menus == old(menus) && customMenu == old(customMenu)
      ensures spinDuration == old(spinDuration) && endRotation == old(endRotation)
      ensures old(pending).None? ==>
        rotation == old(rotation) && !isSpinning && pending.None?
        && selectedMenu == old(selectedMenu) && startTime == old(startTime)
      ensures old(pending).Some? ==>
        var f := old(pending).value;
        var start := if old(startTime).None? || old(startTime).value == 0.0 then timestamp
                     else old(startTime).value;
        var end := old(endRotation).value;
        if timestamp - start < DurationMs(f.spinDuration) then
          rotation == RotationAt(f.from, end, timestamp - start, DurationMs(f.spinDuration))
          && isSpinning && pending == old(pending) && startTime == Some(start)
          && selectedMenu == old(selectedMenu)
        else
          rotation == end && !isSpinning && pending.None? && startTime.None?
          && selectedMenu == Some(f.menus[SelectedIndex(end, |f.menus|)])
      ensures old(pending).Some? ==> old(rotation) <= rotation <= old(endRotation).value
      ensures old(pending).Some? ==> lastTimestamp == timestamp
    {
      if pending.None? {
        return;
      }
      var f := pending.value;
      ghost var oldRotation, oldStart, oldLast := rotation, startTime, lastTimestamp;
      if startTime.None? || startTime.value == 0.0 {
        startTime := Some(timestamp);
      }
      var elapsed := timestamp - startTime.value;
      var durationMs := DurationMs(f.spinDuration);
      var progress := Progress(elapsed, durationMs);
      var end := endRotation.value;
      if progress < 1.0 {
        var currentRotation := Interpolate(f.from, end, EaseOutQuint(progress));
        AdvanceStep(f, end, oldRotation, oldStart, oldLast, startTime.value, timestamp);
        rotation := currentRotation;
      } else {
        rotation := end;
        isSpinning := false;
        var selectedIndex := SelectedIndex(end, |f.menus|);
        selectedMenu := Some(f.menus[selectedIndex]);
        startTime := None;
        pending := None;
      }
      lastTimestamp := timestamp;
    }
  }
}

/** Whole spins driven through the component's handlers. */
module RouletteScenarios {
  import opened Resolver
  import opened Roulette

  /** Four items, a draw that lands 45 degrees past three full turns: the fourth item wins. */
  method FourItemsSpinTo45()
  {
    var r := new LunchRoulette(["A", "B", "C", "D"]);
    r.SpinRoulette(0.375);
    assert r.endRotation == Some(1125.0) && r.pending.Some?;
    assert r.startTime.None?;
    r.Tick(5000.0);
    assert r.startTime == Some(5000.0) && r.lastTimestamp == 5000.0 && r.pending.Some?;
    assert r.pending.value.spinDuration == 5 && r.pending.value.menus == ["A", "B", "C", "D"];
    assert r.endRotation == Some(1125.0);
    SelectedIndexPeriodic(45.0, 3, 4);
    FourItemsAt45();
    assert SelectedIndex(1125.0, 4) == 3;
    ghost var f := r.pending.value;
    assert !(10000.0 - 5000.0 < DurationMs(f.spinDuration));
    r.Tick(10000.0);
    assert !r.isSpinning && r.rotation == 1125.0;
    assert r.selectedMenu == Some(["A", "B", "C", "D"][3]);
  }

  /** The guards with two items: removal is refused, a second spin request is ignored, and
      taps on the wheel do nothing while it turns. */
  method TwoItemsGuards()
  {
    var r := new LunchRoulette(["A", "B"]);
    var warned := r.RemoveMenu(1);
    assert warned && r.menus == ["A", "B"];
    r.SpinRoulette(0.0);
    assert r.endRotation == Some(720.0);
    r.SpinRoulette(0.5);
    assert r.endRotation == Some(720.0);
    warned := r.ClickSector(0);
    assert !warned && r.menus == ["A", "B"];
  }
}
