/**
 Size-based log rotation: a shift of numbered files, proved to keep the most recent
 generations of the log in order, with nothing lost, duplicated or reordered.
 */
module LogRotation {
  import opened Prelude

  datatype Line = Line(text: string, bytes: nat)

  type Generation = seq<Line>

  function Bytes(generation: Generation): nat {
    if generation == [] then 0
    else Bytes(generation[..|generation| - 1]) + generation[|generation| - 1].bytes
  }

  /** A generation has the bytes of its lines. */
  lemma {:induction false} BytesAddUp(a: Generation, b: Generation)
    ensures Bytes(a + b) == Bytes(a) + Bytes(b)
    ensures forall line :: Bytes([line]) == line.bytes
    decreases |b|
  {
    forall line: Line ensures Bytes([line]) == line.bytes {
      assert [line][..0] == [];
    }
    if b == [] {
      assert a + b == a;
    } else {
      assert (a + b)[..|a + b| - 1] == a + b[..|b| - 1];
      BytesAddUp(a, b[..|b| - 1]);
    }
  }

  /** The files of one log: the current one, and in `slots[i]` the file numbered `i + 1`. */
  datatype Files = Files(current: Option<Generation>, slots: seq<Option<Generation>>)

  datatype Settings = Settings(maxBytes: nat, keepFiles: nat)

  predicate Valid(settings: Settings) {
    settings.maxBytes > 0 && settings.keepFiles > 0
  }

  function Empty(settings: Settings): Files {
    Files(None, seq(settings.keepFiles, i => None))
  }

  predicate Rotates(settings: Settings, files: Files) {
    files.current.Some? && Bytes(files.current.value) >= settings.maxBytes
  }

  /** The slots after the files numbered in `expired` have fallen to the age rule. */
  function Young(slots: seq<Option<Generation>>, expired: set<nat>): (young: seq<Option<Generation>>)
    ensures |young| == |slots|
  {
    seq(|slots|, i requires 0 <= i < |slots| => if i + 1 in expired then None else slots[i])
  }

  /** One rotation: after the age rule, every file moves up by one and the oldest is gone. */
  function Rotated(settings: Settings, files: Files, expired: set<nat>): Files
    requires Valid(settings) && |files.slots| == settings.keepFiles
  {
    var young := Young(files.slots, expired);
    if Rotates(settings, files) then Files(None, [files.current] + young[..|young| - 1])
    else Files(files.current, young)
  }

  function Written(settings: Settings, files: Files, line: Line, expired: set<nat>): (written: Files)
    requires Valid(settings) && |files.slots| == settings.keepFiles
    ensures |written.slots| == settings.keepFiles
  {
    var rotated := Rotated(settings, files, expired);
    rotated.(current := Some(rotated.current.GetOr([]) + [line]))
  }

  function Lookup(numbered: map<nat, Generation>, i: nat): Option<Generation> {
    if i in numbered then Some(numbered[i]) else None
  }

  function SlotsOf(numbered: map<nat, Generation>, keep: nat): (slots: seq<Option<Generation>>)
    ensures |slots| == keep && forall i :: 0 <= i < keep ==> slots[i] == Lookup(numbered, i + 1)
  {
    seq(keep, i requires 0 <= i < keep => Lookup(numbered, i + 1))
  }

  lemma AgedSlots(numbered: map<nat, Generation>, keep: nat, expired: set<nat>)
    ensures forall i: nat :: Lookup(numbered - expired, i) == if i in expired then None else Lookup(numbered, i)
    ensures SlotsOf(numbered - expired, keep) == Young(SlotsOf(numbered, keep), expired)
  {
  }

  lemma ShiftedSlots(before: map<nat, Generation>, shifted: map<nat, Generation>, keep: nat, first: Generation)
    requires keep >= 1
    requires forall i: nat :: 2 <= i <= keep ==> Lookup(shifted, i) == Lookup(before, i - 1)
    ensures forall i: nat :: i != 1 ==> Lookup(shifted[1 := first], i) == Lookup(shifted, i)
    ensures SlotsOf(shifted[1 := first], keep) == [Some(first)] + SlotsOf(before, keep)[..keep - 1]
  {
    assert forall i: nat :: i != 1 ==> Lookup(shifted[1 := first], i) == Lookup(shifted, i);
    var slots, oldSlots := SlotsOf(shifted[1 := first], keep), SlotsOf(before, keep);
    assert forall i :: 1 <= i < keep ==> slots[i] == Lookup(shifted, i + 1) == oldSlots[i - 1];
  }

  /** The directory is a map from file numbers to files, changed by deletions and renames. */
  class RotatingLog {
    const settings: Settings
    var current: Option<Generation>
    var numbered: map<nat, Generation>

    constructor (settings: Settings)
      requires Valid(settings)
      ensures this.settings == settings && Contents() == Empty(settings)
    {
      this.settings := settings;
      current, numbered := None, map[];
    }

    function Contents(): Files
      reads this
    {
      Files(current, SlotsOf(numbered, settings.keepFiles))
    }

    /** Moves every file but the oldest up by one; the oldest is deleted first. */
    method ShiftFiles()
      requires Valid(settings)
      modifies this`numbered
      ensures Lookup(numbered, 1) == None
      ensures forall i: nat :: 2 <= i <= settings.keepFiles ==> Lookup(numbered, i) == Lookup(old(numbered), i - 1)
      ensures forall i: nat :: i == 0 || i > settings.keepFiles ==> Lookup(numbered, i) == Lookup(old(numbered), i)
    {
      var keep := settings.keepFiles;
      numbered := numbered - {keep};
      var index := keep - 1;
      while index >= 1
        invariant 0 <= index < keep
        invariant forall i: nat :: i <= index || i > keep ==> Lookup(numbered, i) == Lookup(old(numbered), i)
        invariant Lookup(numbered, index + 1) == None
        invariant forall i: nat :: index + 2 <= i <= keep ==> Lookup(numbered, i) == Lookup(old(numbered), i - 1)
      {
        ghost var before := numbered;
        assert Lookup(before, index) == Lookup(old(numbered), index);
        if index in numbered {
          numbered := numbered[index + 1 := numbered[index]] - {index};
        }
        assert forall i: nat :: i != index && i != index + 1 ==> Lookup(numbered, i) == Lookup(before, i);
        index := index - 1;
      }
    }

    method Rotate(expired: set<nat>)
      requires Valid(settings)
      modifies this
      ensures Contents() == Rotated(settings, old(Contents()), expired)
      ensures forall i: nat :: i == 0 || i > settings.keepFiles ==>
        Lookup(numbered, i) == if i in expired then None else Lookup(old(numbered), i)
    {
      hide Young, SlotsOf, Bytes;
      AgedSlots(numbered, settings.keepFiles, expired);
      numbered := numbered - expired;
      if current.None? {
        return;
      }
      if Bytes(current.value) < settings.maxBytes {
        return;
      }
      ghost var young := numbered;
      ShiftFiles();
      ShiftedSlots(young, numbered, settings.keepFiles, current.value);
      numbered := numbered[1 := current.value];
      current := None;
    }

    method Write(line: Line, expired: set<nat>)
      requires Valid(settings)
      modifies this
      ensures Contents() == Written(settings, old(Contents()), line, expired)
    {
      Rotate(expired);
      ghost var rotated := Contents();
      current := Some(current.GetOr([]) + [line]);
      assert Contents().slots == rotated.slots;
    }
  }

  // ----- Runs -----

  datatype Operation = Write(line: Line, expired: set<nat>)

  function After(settings: Settings, run: seq<Operation>): (files: Files)
    requires Valid(settings)
    ensures |files.slots| == settings.keepFiles
  {
    if run == [] then Empty(settings)
    else
      var last := run[|run| - 1];
      Written(settings, After(settings, run[..|run| - 1]), last.line, last.expired)
  }

  /** Every line written so far. */
  function History(run: seq<Operation>): seq<Line> {
    if run == [] then [] else History(run[..|run| - 1]) + [run[|run| - 1].line]
  }

  /** The closed files of the whole run, oldest first, whether or not they still exist. */
  function Generations(settings: Settings, run: seq<Operation>): seq<Generation>
    requires Valid(settings)
  {
    if run == [] then []
    else
      var before := After(settings, run[..|run| - 1]);
      Generations(settings, run[..|run| - 1]) + if Rotates(settings, before) then [before.current.value] else []
  }

  /** The position, among `count` closed files, of the one in slot `i`. */
  function Position(count: nat, i: nat): int {
    count - 1 - i
  }

  /** The closed files, by position, that one application of the age rule removes. */
  function Removed(slots: seq<Option<Generation>>, expired: set<nat>, count: nat): set<int> {
    set i | 0 <= i < |slots| && slots[i].Some? && i + 1 in expired :: Position(count, i)
  }

  /** The closed files of the run that the age rule has removed. */
  function Aged(settings: Settings, run: seq<Operation>): set<int>
    requires Valid(settings)
  {
    if run == [] then {}
    else
      var before := run[..|run| - 1];
      Aged(settings, before)
        + Removed(After(settings, before).slots, run[|run| - 1].expired, |Generations(settings, before)|)
  }

  function Flatten(generations: seq<Generation>): seq<Line> {
    if generations == [] then []
    else Flatten(generations[..|generations| - 1]) + generations[|generations| - 1]
  }

  /** Slot `i` holds the closed file number `i + 1` from the end, and is empty only for its age. */
  predicate HoldsRecent(slots: seq<Option<Generation>>, generations: seq<Generation>, aged: set<int>) {
    forall i {:trigger slots[i]} :: 0 <= i < |slots| ==>
      slots[i] ==
        if i < |generations| && Position(|generations|, i) !in aged then Some(generations[Position(|generations|, i)])
        else None
  }

  lemma ExpiryKeepsRecent(
      slots: seq<Option<Generation>>, generations: seq<Generation>, aged: set<int>, expired: set<nat>)
    requires HoldsRecent(slots, generations, aged)
    ensures HoldsRecent(Young(slots, expired), generations, aged + Removed(slots, expired, |generations|))
  {
    var removed := Removed(slots, expired, |generations|);
    forall i | 0 <= i < |slots| && slots[i].Some?
      ensures Position(|generations|, i) in removed <==> i + 1 in expired
    {
      if Position(|generations|, i) in removed {
        var j :| 0 <= j < |slots| && slots[j].Some? && j + 1 in expired
          && Position(|generations|, j) == Position(|generations|, i);
        assert i == j;
      }
    }
  }

  lemma ShiftKeepsRecent(
      slots: seq<Option<Generation>>, generations: seq<Generation>, aged: set<int>, current: Generation)
    requires slots != [] && HoldsRecent(slots, generations, aged)
    requires forall g :: g in aged ==> g < |generations|
    ensures HoldsRecent([Some(current)] + slots[..|slots| - 1], generations + [current], aged)
  {
    var shifted := [Some(current)] + slots[..|slots| - 1];
    var more := generations + [current];
    forall i | 0 <= i < |shifted|
      ensures shifted[i] ==
        if i < |more| && Position(|more|, i) !in aged then Some(more[Position(|more|, i)]) else None
    {
      if i > 0 {
        assert shifted[i] == slots[i - 1] && Position(|more|, i) == Position(|generations|, i - 1);
      }
    }
  }

  /**
   The main invariant over every run: each numbered file is the closed file its number says,
   the `keepFiles` most recent ones all exist unless they aged out, and the closed files
   followed by the current one are everything that was ever written, in order.
   */
  lemma {:induction false} RunKeepsRecent(settings: Settings, run: seq<Operation>)
    requires Valid(settings)
    ensures HoldsRecent(After(settings, run).slots, Generations(settings, run), Aged(settings, run))
    ensures forall g :: g in Aged(settings, run) ==> g < |Generations(settings, run)|
    ensures Flatten(Generations(settings, run)) + After(settings, run).current.GetOr([]) == History(run)
  {
    if run != [] {
      var before, last := run[..|run| - 1], run[|run| - 1];
      RunKeepsRecent(settings, before);
      var files := After(settings, before);
      ExpiryKeepsRecent(files.slots, Generations(settings, before), Aged(settings, before), last.expired);
      hide HoldsRecent;
      StepKeepsRecent(settings, files, Generations(settings, before), Aged(settings, run), last);
      StepKeepsHistory(settings, files, Generations(settings, before), History(before), last);
    }
  }

  lemma StepKeepsRecent(
      settings: Settings, files: Files, generations: seq<Generation>, aged: set<int>, last: Operation)
    requires Valid(settings) && |files.slots| == settings.keepFiles
    requires HoldsRecent(Young(files.slots, last.expired), generations, aged)
    requires forall g :: g in aged ==> g < |generations|
    ensures var more := generations + if Rotates(settings, files) then [files.current.value] else [];
      HoldsRecent(Written(settings, files, last.line, last.expired).slots, more, aged)
  {
    if Rotates(settings, files) {
      ShiftKeepsRecent(Young(files.slots, last.expired), generations, aged, files.current.value);
    } else {
      assert generations + [] == generations;
    }
  }

  lemma StepKeepsHistory(
      settings: Settings, files: Files, generations: seq<Generation>, history: seq<Line>, last: Operation)
    requires Valid(settings) && |files.slots| == settings.keepFiles
    requires Flatten(generations) + files.current.GetOr([]) == history
    ensures var more := generations + if Rotates(settings, files) then [files.current.value] else [];
      Flatten(more) + Written(settings, files, last.line, last.expired).current.GetOr([]) == history + [last.line]
  {
    if Rotates(settings, files) {
      FlattenMore(generations, files.current.value);
    } else {
      assert generations + [] == generations;
    }
  }

  lemma FlattenMore(generations: seq<Generation>, more: Generation)
    ensures Flatten(generations + [more]) == Flatten(generations) + more
  {
    assert (generations + [more])[..|generations|] == generations;
  }

  // ----- What is kept when nothing ages out -----

  /** The files in the first `n` slots, oldest first. */
  function Retained(slots: seq<Option<Generation>>, n: nat): seq<Line>
    requires n <= |slots|
  {
    if n == 0 then [] else slots[n - 1].GetOr([]) + Retained(slots, n - 1)
  }

  predicate NothingExpires(run: seq<Operation>) {
    forall i :: 0 <= i < |run| ==> run[i].expired == {}
  }

  lemma {:induction false} NothingAged(settings: Settings, run: seq<Operation>)
    requires Valid(settings) && NothingExpires(run)
    ensures Aged(settings, run) == {}
  {
    if run != [] {
      NothingAged(settings, run[..|run| - 1]);
    }
  }

  lemma {:induction false} RetainedIsRecent(slots: seq<Option<Generation>>, generations: seq<Generation>, n: nat)
    requires n <= |generations| && n <= |slots| && HoldsRecent(slots, generations, {})
    ensures Flatten(generations) == Flatten(generations[..|generations| - n]) + Retained(slots, n)
  {
    if n == 0 {
      assert generations[..|generations|] == generations;
    } else {
      RetainedIsRecent(slots, generations, n - 1);
      var kept := generations[..|generations| - n];
      var generation := generations[|generations| - n];
      assert slots[n - 1] == Some(generation);
      assert generations[..|generations| - (n - 1)] == kept + [generation];
      FlattenMore(kept, generation);
    }
  }

  /**
   When no file is removed for its age, the numbered files from the oldest to the newest and
   then the current file are exactly the end of the history; what is missing is the closed
   files before the `keepFiles` most recent ones.
   */
  lemma {:induction false} RetainedIsEndOfHistory(settings: Settings, run: seq<Operation>)
    requires Valid(settings) && NothingExpires(run)
    ensures var generations, files := Generations(settings, run), After(settings, run);
      var kept := Min(|generations|, settings.keepFiles);
      History(run) == Flatten(generations[..|generations| - kept])
        + Retained(files.slots, kept) + files.current.GetOr([])
  {
    RunKeepsRecent(settings, run);
    NothingAged(settings, run);
    hide Generations, History, Aged, Flatten, HoldsRecent;
    RetainedIsRecent(After(settings, run).slots, Generations(settings, run),
      Min(|Generations(settings, run)|, settings.keepFiles));
  }

  // ----- How large a closed file is -----

  predicate ReachedLimit(settings: Settings, generation: Generation) {
    && generation != []
    && Bytes(generation[..|generation| - 1]) < settings.maxBytes
    && Bytes(generation) >= settings.maxBytes
  }

  /** A file is closed with the first line that brings it to the limit, never earlier or later. */
  lemma {:induction false} ClosedAtTheLimit(settings: Settings, run: seq<Operation>)
    requires Valid(settings)
    ensures forall g :: 0 <= g < |Generations(settings, run)| ==> ReachedLimit(settings, Generations(settings, run)[g])
    ensures run != [] ==>
      var current := After(settings, run).current;
      current.Some? && current.value != [] && Bytes(current.value[..|current.value| - 1]) < settings.maxBytes
  {
    if run != [] {
      var before := run[..|run| - 1];
      ClosedAtTheLimit(settings, before);
      var current := Rotated(settings, After(settings, before), run[|run| - 1].expired).current.GetOr([]);
      var line := run[|run| - 1].line;
      assert (current + [line])[..|current|] == current;
    }
  }
}
