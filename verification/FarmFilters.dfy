/** The filters above the device list and the problem list, and how an impossible choice is dropped. */
module FarmFilters {
  import opened Wrappers
  import opened Sequences

  datatype Alarm = Alarm(cls: Option<string>, level: int)

  /** `container` is the text of the container's number. */
  datatype Device = Device(id: int, container: Option<string>, model: Option<string>, alarms: seq<Alarm>)

  /** The two selects; an empty string chooses nothing. */
  datatype Choice = Choice(container: string, model: string)

  const NOTHING := Choice("", "")
  const NULL_TEXT := "null"

  /** The filter left out of a count, so that the count offers every alternative to the current choice. */
  datatype Skip = SkipContainer | SkipModel

  /** What the container of a device is compared as: a device outside any container reads "null". */
  function ContainerText(d: Device): string {
    if d.container.Some? then d.container.value else NULL_TEXT
  }

  predicate InContainer(d: Device, f: Choice) {
    f.container == "" || ContainerText(d) == f.container
  }

  predicate OfModel(d: Device, f: Choice) {
    f.model == "" || d.model == Some(f.model)
  }

  /** `others` stands for the filters that the repair leaves alone. */
  predicate Passes(d: Device, f: Choice, others: Device -> bool) {
    others(d) && InContainer(d, f) && OfModel(d, f)
  }

  /** A device is listed when its container reads as chosen and it is of the chosen model, wherever one is chosen. */
  lemma PassesIff(d: Device, f: Choice, others: Device -> bool)
    ensures Passes(d, f, others) <==>
            && others(d)
            && (f.container != "" ==>
              d.container == Some(f.container) || (d.container == None && f.container == "null"))
            && (f.model != "" ==> d.model == Some(f.model))
  {
  }

  predicate PassesBut(d: Device, f: Choice, others: Device -> bool, skip: Skip) {
    match skip
    case SkipContainer => others(d) && OfModel(d, f)
    case SkipModel => others(d) && InContainer(d, f)
  }

  function KeyOf(d: Device, skip: Skip): Option<string> {
    match skip
    case SkipContainer => d.container
    case SkipModel => d.model
  }

  function CountIf(devs: seq<Device>, p: Device -> bool): nat {
    |Filter(devs, p)|
  }

  /** The devices counted beside the option `k`. */
  function Beside(f: Choice, others: Device -> bool, skip: Skip, k: string): Device -> bool {
    d => PassesBut(d, f, others, skip) && KeyOf(d, skip) == Some(k)
  }

  /**
   The devices counted beside a container are those that would be listed with it chosen instead of the current
   one, except for those outside any container; and likewise beside a model.
   */
  lemma BesideIff(d: Device, f: Choice, others: Device -> bool, k: string)
    requires k != ""
    ensures Beside(f, others, SkipContainer, k)(d) <==> Passes(d, f.(container := k), others) && d.container.Some?
    ensures Beside(f, others, SkipModel, k)(d) <==> Passes(d, f.(model := k), others)
  {
  }

  /** An option for every non-empty key that some device has, with the number of such devices. */
  ghost predicate Tallies(o: map<string, nat>, devs: seq<Device>, f: Choice, others: Device -> bool, skip: Skip) {
    && (forall k :: k in o <==> k != "" && CountIf(devs, Beside(f, others, skip, k)) > 0)
    && (forall k :: k in o ==> o[k] == CountIf(devs, Beside(f, others, skip, k)))
  }

  lemma CountIfPositive(devs: seq<Device>, p: Device -> bool)
    ensures CountIf(devs, p) > 0 <==> exists d :: d in devs && p(d)
  {
    FilterMembers(devs, p);
    if CountIf(devs, p) > 0 {
      assert Filter(devs, p)[0] in Filter(devs, p);
    }
  }

  // ---------- what the repair comes to ----------

  /** Some device passes the whole filter, and has the container and the model that were chosen. */
  ghost predicate Possible(devs: seq<Device>, others: Device -> bool, f: Choice) {
    exists d :: d in devs && Passes(d, f, others) && (f.container != "" ==> d.container.Some?)
  }

  /** The first of the whole choice, the choice without its container, and nothing that is possible. */
  ghost function Repaired(devs: seq<Device>, others: Device -> bool, f: Choice): Choice {
    if Possible(devs, others, f) then f
    else if Possible(devs, others, f.(container := "")) then f.(container := "")
    else NOTHING
  }

  /** The option of the chosen container is there exactly when the whole choice is possible. */
  lemma ContainerOffered(devs: seq<Device>, others: Device -> bool, f: Choice)
    requires f.container != ""
    ensures CountIf(devs, Beside(f, others, SkipContainer, f.container)) > 0 <==> Possible(devs, others, f)
  {
    var p := Beside(f, others, SkipContainer, f.container);
    CountIfPositive(devs, p);
    if Possible(devs, others, f) {
      var d :| d in devs && Passes(d, f, others) && d.container.Some?;
      assert p(d);
    }
    if d :| d in devs && p(d) {
      assert Passes(d, f, others) && d.container.Some?;
    }
  }

  /** The option of the chosen model is there exactly when some device passes the whole filter. */
  lemma ModelOffered(devs: seq<Device>, others: Device -> bool, f: Choice)
    requires f.model != ""
    ensures CountIf(devs, Beside(f, others, SkipModel, f.model)) > 0 <==> exists d :: d in devs && Passes(d, f, others)
  {
    var p := Beside(f, others, SkipModel, f.model);
    CountIfPositive(devs, p);
    if d :| d in devs && Passes(d, f, others) {
      assert p(d);
    }
    if d :| d in devs && p(d) {
      assert Passes(d, f, others);
    }
  }

  lemma TallyIgnoresContainer(o: map<string, nat>, devs: seq<Device>, others: Device -> bool, f: Choice, c: string)
    requires Tallies(o, devs, f, others, SkipContainer)
    ensures Tallies(o, devs, f.(container := c), others, SkipContainer)
  {
    forall k
      ensures CountIf(devs, Beside(f, others, SkipContainer, k))
              == CountIf(devs, Beside(f.(container := c), others, SkipContainer, k))
    {
      FilterSame(devs, Beside(f, others, SkipContainer, k), Beside(f.(container := c), others, SkipContainer, k));
    }
  }

  lemma TallyIgnoresModel(o: map<string, nat>, devs: seq<Device>, others: Device -> bool, f: Choice, m: string)
    requires Tallies(o, devs, f, others, SkipModel)
    ensures Tallies(o, devs, f.(model := m), others, SkipModel)
  {
    forall k
      ensures CountIf(devs, Beside(f, others, SkipModel, k))
              == CountIf(devs, Beside(f.(model := m), others, SkipModel, k))
    {
      FilterSame(devs, Beside(f, others, SkipModel, k), Beside(f.(model := m), others, SkipModel, k));
    }
  }

  /** A second pass changes nothing. */
  lemma RepairIsFixpoint(devs: seq<Device>, others: Device -> bool, f: Choice)
    ensures Repaired(devs, others, Repaired(devs, others, f)) == Repaired(devs, others, f)
  {
    if Repaired(devs, others, f) == NOTHING {
      assert NOTHING.(container := "") == NOTHING;
    }
  }

  /** Whatever choice is left, the list is not empty and its own options are offered with a positive count. */
  lemma KeptChoiceHasDevices(devs: seq<Device>, others: Device -> bool, f: Choice)
    ensures var g := Repaired(devs, others, f);
            && (g != NOTHING ==> exists d :: d in devs && Passes(d, g, others))
            && (g.container != "" ==> CountIf(devs, Beside(g, others, SkipContainer, g.container)) > 0)
            && (g.model != "" ==> CountIf(devs, Beside(g, others, SkipModel, g.model)) > 0)
  {
    var g := Repaired(devs, others, f);
    if g.container != "" {
      ContainerOffered(devs, others, g);
    }
    if g.model != "" {
      ModelOffered(devs, others, g);
    }
  }

  /** The pass leaves the filter alone exactly when nothing is chosen or the choice is possible. */
  lemma UnchangedIff(devs: seq<Device>, others: Device -> bool, f: Choice)
    ensures Repaired(devs, others, f) == f <==> f == NOTHING || Possible(devs, others, f)
  {
    if !Possible(devs, others, f) && f != NOTHING && f.container == "" {
      assert f.(container := "") == f;
    }
  }

  /** No more is dropped than has to be: the model goes only when no device has it whatever the container. */
  lemma NothingDroppedInVain(devs: seq<Device>, others: Device -> bool, f: Choice)
    ensures var g := Repaired(devs, others, f);
            && (g.container == f.container || (g.container == "" && !Possible(devs, others, f)))
            && (g.model == f.model || (g == NOTHING && !Possible(devs, others, f.(container := ""))))
  {
    if Possible(devs, others, f) {
    } else if !Possible(devs, others, f.(container := "")) && f.container != "" && f.model == "" {
      assert f.(container := "") == NOTHING;
    }
  }

  // ---------- the state of the filters ----------

  /** What the classes of a device's problems are counted as; a problem without a class counts as "null". */
  function ClassText(a: Alarm): string {
    if a.cls.Some? then a.cls.value else NULL_TEXT
  }

  function ClassesOf(d: Device): set<string> {
    set a | a in d.alarms :: ClassText(a)
  }

  function WithClass(cls: string): Device -> bool {
    d => cls in ClassesOf(d)
  }

  /** A device of the problem list: one problem of it passes both the class and the level. */
  predicate HasProblem(d: Device, cls: string, level: Option<int>) {
    exists a :: a in d.alarms && (cls == "" || a.cls == Some(cls)) && (level.Some? ==> a.level >= level.value)
  }

  /** The problem is neither of another class than the chosen one nor below the chosen level. */
  function Listed(cls: string, level: Option<int>): Alarm -> bool {
    (a: Alarm) => !(cls != "" && a.cls != Some(cls)) && !(level.Some? && a.level < level.value)
  }

  /** The lines of the problem list that are about the device. */
  function Lines(d: Device, cls: string, level: Option<int>): seq<Alarm> {
    Filter(d.alarms, Listed(cls, level))
  }

  /** A device is counted on the problem page exactly when the list has a line about it. */
  lemma HasProblemIff(d: Device, cls: string, level: Option<int>)
    ensures HasProblem(d, cls, level) <==> Lines(d, cls, level) != []
  {
    FilterMembers(d.alarms, Listed(cls, level));
    if Lines(d, cls, level) != [] {
      assert Lines(d, cls, level)[0] in Lines(d, cls, level);
    }
  }

  function Problems(cls: string, level: Option<int>, search: Device -> bool): Device -> bool {
    d => HasProblem(d, cls, level) && search(d)
  }

  /** For every class, the devices with a problem of it, each counted once. */
  ghost predicate ClassTallies(o: map<string, nat>, devs: seq<Device>) {
    && (forall k :: k in o <==> CountIf(devs, WithClass(k)) > 0)
    && (forall k :: k in o ==> o[k] == CountIf(devs, WithClass(k)))
  }

  function Counted(o: map<string, nat>, k: string): nat {
    if k in o then o[k] else 0
  }

  /** The class of problems that stays chosen: one that some device has. */
  ghost function KeptClass(devs: seq<Device>, cls: string): string {
    if exists d :: d in devs && cls in ClassesOf(d) then cls else ""
  }

  lemma KeepsClass(devs: seq<Device>, cls: string)
    ensures CountIf(devs, WithClass(cls)) > 0 <==> exists d :: d in devs && cls in ClassesOf(d)
  {
    CountIfPositive(devs, WithClass(cls));
    if d :| d in devs && cls in ClassesOf(d) {
      assert WithClass(cls)(d);
    }
    if d :| d in devs && WithClass(cls)(d) {
      assert cls in ClassesOf(d);
    }
  }

  method ClassCounts(devs: seq<Device>) returns (o: map<string, nat>)
    ensures ClassTallies(o, devs)
  {
    o := map[];
    var i := 0;
    while i < |devs|
      invariant 0 <= i <= |devs| && ClassTallies(o, devs[..i])
    {
      ghost var before := o;
      var classes := ClassesOf(devs[i]);
      while classes != {}
        invariant classes <= ClassesOf(devs[i])
        invariant forall k :: k in o <==> k in before || k in ClassesOf(devs[i]) - classes
        invariant forall k :: k in o ==> o[k] == Counted(before, k) + if k in ClassesOf(devs[i]) - classes then 1 else 0
        decreases classes
      {
        var k :| k in classes;
        o := o[k := Counted(o, k) + 1];
        classes := classes - {k};
      }
      forall k
        ensures CountIf(devs[..i + 1], WithClass(k)) ==
                CountIf(devs[..i], WithClass(k)) + if k in ClassesOf(devs[i]) then 1 else 0
      {
        FilterStep(devs, i, WithClass(k));
      }
      i := i + 1;
    }
    assert devs[..i] == devs;
  }

  /** The class that is left has a device to show, and a second pass keeps it. */
  lemma KeptClassHasDevices(devs: seq<Device>, cls: string)
    ensures var kept := KeptClass(devs, cls);
            && (kept == cls || kept == "")
            && (kept != "" ==> CountIf(devs, WithClass(kept)) > 0)
            && KeptClass(devs, kept) == kept
  {
    KeepsClass(devs, cls);
  }

  /** The tally with one more device. */
  function WithOneMore(o: map<string, nat>, d: Device, f: Choice, others: Device -> bool, skip: Skip): map<string, nat>
  {
    var key := KeyOf(d, skip);
    if PassesBut(d, f, others, skip) && key.Some? && key.value != ""
    then o[key.value := (if key.value in o then o[key.value] else 0) + 1]
    else o
  }

  lemma TallyOfNone(f: Choice, others: Device -> bool, skip: Skip)
    ensures Tallies(map[], [], f, others, skip)
  {
  }

  lemma TallyStep(o: map<string, nat>, devs: seq<Device>, i: nat, f: Choice, others: Device -> bool, skip: Skip)
    requires i < |devs| && Tallies(o, devs[..i], f, others, skip)
    ensures Tallies(WithOneMore(o, devs[i], f, others, skip), devs[..i + 1], f, others, skip)
  {
    forall k
      ensures CountIf(devs[..i + 1], Beside(f, others, skip, k)) ==
              CountIf(devs[..i], Beside(f, others, skip, k)) + if Beside(f, others, skip, k)(devs[i]) then 1 else 0
    {
      FilterStep(devs, i, Beside(f, others, skip, k));
    }
  }

  method Tally(devs: seq<Device>, f: Choice, others: Device -> bool, skip: Skip) returns (o: map<string, nat>)
    ensures Tallies(o, devs, f, others, skip)
  {
    o := map[];
    var i := 0;
    TallyOfNone(f, others, skip);
    assert devs[..0] == [];
    while i < |devs|
      invariant 0 <= i <= |devs| && Tallies(o, devs[..i], f, others, skip)
    {
      TallyStep(o, devs, i, f, others, skip);
      var key := KeyOf(devs[i], skip);
      if PassesBut(devs[i], f, others, skip) && key.Some? && key.value != "" {
        o := o[key.value := (if key.value in o then o[key.value] else 0) + 1];
      }
      i := i + 1;
    }
    assert devs[..i] == devs;
  }

  /** The choice that both pages keep between visits. */
  class Filters {
    var container: string
    var model: string
    var cls: string
    var level: Option<int>

    function Chosen(): Choice reads this {
      Choice(container, model)
    }

    /**
     One pass over the device page: both counts are those of the repaired filter, although one of
     them may have been taken before the repair.
     */
    method Repair(devs: seq<Device>, others: Device -> bool) returns (cc: map<string, nat>, mm: map<string, nat>)
      modifies `container, `model
      ensures Chosen() == Repaired(devs, others, old(Chosen()))
      ensures Tallies(cc, devs, Chosen(), others, SkipContainer)
      ensures Tallies(mm, devs, Chosen(), others, SkipModel)
    {
      ghost var f := Chosen();
      cc := Tally(devs, Chosen(), others, SkipContainer);
      mm := Tally(devs, Chosen(), others, SkipModel);
      if container != "" {
        ContainerOffered(devs, others, f);
      }
      if container != "" && container !in cc {
        TallyIgnoresContainer(cc, devs, others, f, "");
        container := "";
        mm := Tally(devs, Chosen(), others, SkipModel);
      }
      ghost var g := Chosen();
      assert g == if f.container != "" && !Possible(devs, others, f) then f.(container := "") else f;
      if model != "" {
        ModelOffered(devs, others, g);
      }
      if model != "" && model !in mm {
        TallyIgnoresModel(mm, devs, others, g, "");
        model := "";
        cc := Tally(devs, Chosen(), others, SkipContainer);
      }
    }

    /** One pass over the problem page: the class first, then the same repair among its devices. */
    method RepairErrors(devs: seq<Device>, search: Device -> bool) returns (cc: map<string, nat>, mm: map<string, nat>)
      modifies `container, `model, `cls
      ensures cls == KeptClass(devs, old(cls))
      ensures Chosen() == Repaired(devs, Problems(cls, level, search), old(Chosen()))
      ensures Tallies(cc, devs, Chosen(), Problems(cls, level, search), SkipContainer)
      ensures Tallies(mm, devs, Chosen(), Problems(cls, level, search), SkipModel)
    {
      var counts := ClassCounts(devs);
      KeepsClass(devs, cls);
      if cls != "" && cls !in counts {
        cls := "";
      }
      cc, mm := Repair(devs, Problems(cls, level, search));
    }
  }
}
