/** The wheel's mutable state and the operations that change it: adding and
    deleting titles, starting a spin, advancing it one animation frame at a
    time, and removing the winner once it is confirmed. One `Wheel` object
    stands for the module-level state of one page (the movie list or the
    game list). */
module WheelState {
  import opened JsBuiltins
  import opened WheelMath

  /** What a request to spin did: refused because there is nothing to spin
      (the page shows an alert), dropped because a spin is already running,
      or started. */
  datatype SpinOutcome = EmptyList | AlreadySpinning | Started

  class Wheel {
    /** The titles, in insertion order, which is also their order round the wheel. */
    var entries: seq<string>
    /** The angle the wheel is drawn at. */
    var currentRotation: real
    /** Whether a spin animation is running. */
    var isSpinning: bool
    /** The last winner; None until a spin has finished (null / undefined). */
    var selected: Option<string>
    /** The target angle of the running (or last) spin. */
    var totalRotation: real

    /** The wheel's angle stays in [0, 8 turns), and a running spin aims at
        between 5 and 8 turns. */
    ghost predicate Valid()
      reads this
    {
      0.0 <= currentRotation < MaxSpins * FullTurn
      && (isSpinning ==> MinSpins * FullTurn <= totalRotation < MaxSpins * FullTurn)
    }

    /** The page as loaded, before any title is read in: an empty list, the
        wheel at angle 0, idle, nothing selected. */
    constructor ()
      ensures Valid()
      ensures entries == [] && currentRotation == 0.0 && !isSpinning && selected == None
    {
      entries := [];
      currentRotation := 0.0;
      isSpinning := false;
      selected := None;
      totalRotation := 0.0;
    }

    /** Adds the text typed by the user, trimmed, at the end of the list;
        text that is empty once trimmed is ignored. */
    method Add(text: string)
      requires Valid()
      modifies this`entries
      ensures Valid()
      ensures entries == if Trim(text) == [] then old(entries) else old(entries) + [Trim(text)]
    {
      var title := Trim(text);
      if title != [] {
        entries := entries + [title];
      }
    }

    /** Deletes the title at `index`, as `splice(index, 1)` does: later titles
        move down by one, and an index past the end changes nothing. */
    method Delete(index: nat)
      requires Valid()
      modifies this`entries
      ensures Valid()
      ensures entries == RemoveAt(old(entries), index)
    {
      entries := RemoveAt(entries, index);
    }

    /** A request to spin, with `random` the value `Math.random()` returned.
        An empty list is refused first; a request during a spin is dropped;
        otherwise a spin towards `TotalRotation(random)` starts. Neither
        refusal changes any state. The wheel keeps its angle until the first
        frame is drawn. */
    method Spin(random: real) returns (outcome: SpinOutcome)
      requires Valid() && 0.0 <= random < 1.0
      modifies this`isSpinning, this`totalRotation
      ensures Valid()
      ensures outcome == if entries == [] then EmptyList
                         else if old(isSpinning) then AlreadySpinning
                         else Started
      ensures outcome != Started ==> isSpinning == old(isSpinning) && totalRotation == old(totalRotation)
      ensures outcome == Started ==> isSpinning && totalRotation == TotalRotation(random)
    {
      if |entries| == 0 {
        return EmptyList;
      }
      if isSpinning {
        return AlreadySpinning;
      }
      isSpinning := true;
      totalRotation := TotalRotation(random);
      outcome := Started;
    }

    /** One animation frame, `elapsed` milliseconds after the spin started.
        The wheel is drawn at the eased angle. While progress is below 1 the
        spin goes on and the selection is untouched; on the frame where it
        reaches 1 the wheel stands exactly at the target, the winner is read
        off that angle using the list as it is at that moment, and the spin
        ends. */
    method Tick(elapsed: nat)
      requires Valid() && isSpinning
      modifies this`currentRotation, this`isSpinning, this`selected
      ensures Valid()
      ensures currentRotation == FrameRotation(totalRotation, elapsed)
      ensures 0.0 <= currentRotation <= totalRotation
      ensures isSpinning <==> Progress(elapsed) < 1.0
      ensures isSpinning ==> selected == old(selected)
      ensures !isSpinning ==> currentRotation == totalRotation
      ensures !isSpinning ==> selected == Winner(entries, currentRotation)
    {
      var progress := Progress(elapsed);
      var easeOut := EaseOut(progress);
      currentRotation := totalRotation * easeOut;
      assert currentRotation == FrameRotation(totalRotation, elapsed);
      if progress < 1.0 {
        return;
      }
      selected := Winner(entries, currentRotation);
      isSpinning := false;
    }

    /** Confirms the winner: the first title equal to the selection is removed
        (later duplicates stay); nothing is removed when no title equals it
        or nothing is selected. */
    method ConfirmChoice()
      requires Valid()
      modifies this`entries
      ensures Valid()
      ensures entries == match selected
                         case None => old(entries)
                         case Some(title) => if title in old(entries)
                                             then RemoveAt(old(entries), IndexOf(old(entries), title))
                                             else old(entries)
    {
      var index := match selected case None => -1 case Some(title) => IndexOf(entries, title);
      if index > -1 {
        entries := RemoveAt(entries, index);
      }
    }
  }

  /** Filling the wheel: four titles typed (one padded with spaces, one
      blank), then the third deleted. */
  method ExampleList() returns (w: Wheel)
    ensures fresh(w) && w.Valid() && !w.isSpinning && w.entries == ["A", "B", "D"]
  {
    TrimExamples();
    TrimSingleLetter('B');
    TrimSingleLetter('C');
    TrimSingleLetter('D');
    w := new Wheel();
    w.Add(" A ");
    w.Add("B");
    w.Add("C");
    w.Add("   ");
    w.Add("D");
    assert w.entries == ["A", "B", "C", "D"];
    w.Delete(2);
  }

  /** A spin run to its end on a wheel of three titles, with a second request
      dropped on the way, and the winner confirmed. */
  method ExampleSpin(w: Wheel, random: real, finish: nat)
    requires w.Valid() && !w.isSpinning && |w.entries| == 3
    requires 0.0 <= random < 1.0 && Duration <= finish as real
    modifies w
  {
    var outcome := w.Spin(random);
    assert outcome == Started;
    outcome := w.Spin(random);
    assert outcome == AlreadySpinning;
    w.Tick(finish);
    assert !w.isSpinning;
    assert w.selected == Winner(w.entries, w.currentRotation);
    assert w.selected.Some? && w.selected.value in w.entries;
    w.ConfirmChoice();
    assert |w.entries| == 2;
  }
}
