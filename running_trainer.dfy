/** The running trainer: a smaller dispatch table over three button
    categories, and its own `start_fighting` and `search_next`, which read
    the stats without catching anything, so a missing or failed stat ends
    the handler early. Its registry, `update_available_buttons`,
    `handle_button_event`, `go_to_fight_zone`, `return_to_town`, `in_town`
    and `go_to_locations` are the farming handlers' code over
    `RunningCategories` and are shared with them. */
module RunningTrainer {
  import opened Wrappers
  import opened Buttons
  import opened States
  import opened Effects
  import opened Registry
  import opened Dispatch
  import FarmingHandlers
  import FarmingTrainer

  /** The running table, in order. */
  function RunningTable(): (t: seq<Rule>)
    ensures |t| == 6
    ensures forall j :: 0 <= j < |t| ==> t[j].action != SkipTurn
  {
    [ Rule(Locations, GoToFightZone),
      Rule(MonsterFound, Action.StartFighting),
      Rule(Win, Action.SearchNext),
      Rule(Town, InTown),
      Rule(Alive, InTown),
      Rule(HpRecovered, GoToLocations) ]
  }

  /** `_select_action_by_event` of the running trainer. */
  function SelectRunning(m: Message): Action {
    Select(RunningTable(), Recognised(m))
  }

  /** The handlers the running table can reach. */
  predicate RunningAction(a: Action) {
    a in {GoToFightZone, Action.StartFighting, Action.SearchNext, InTown, GoToLocations, SkipTurn}
  }

  /** Running never selects a dungeon, captcha, energy or `init` handler:
      only the five of its table, or the skip handler. */
  lemma {:induction false} RunningSelectsOnlyItsHandlers(rs: set<State>)
    ensures RunningAction(Select(RunningTable(), rs))
    ensures Select(RunningTable(), rs) == SkipTurn <==> forall j :: 0 <= j < 6 ==> RunningTable()[j].state !in rs
  {
    var t := RunningTable();
    SkipExactlyWhenNoMatch(t, rs);
    if Select(t, rs) != SkipTurn {
      var k := SelectFromFirstMatch(t, rs);
      assert RunningAction(t[k].action);
    }
  }

  /** Where running's rule `k` sits in the farming table: the farming
      table has the `init` rule ahead of them all and the "monster not
      found" rule after the second. */
  function FarmingPosition(k: nat): nat {
    if k < 2 then k + 1 else k + 2
  }

  /** The running rules are farming rules with dungeons off, in the same
      order. */
  lemma RunningRulesInFarmingTable()
    ensures forall k :: 0 <= k < 6 ==> RunningTable()[k] == FarmingTrainer.FarmingTable(false)[FarmingPosition(k)]
  {
  }

  /** The positions of the running rules in the farming table. */
  const RunningPositions: seq<nat> := [1, 2, 4, 5, 6, 7]

  /** The running rules sit, in order, at `RunningPositions` among the
      first eight farming rules with dungeons off; the other two of those
      are the `init` and "monster not found" rules. */
  lemma RunningEmbedding()
    ensures EmbeddedAt(RunningTable(), FarmingTrainer.FarmingTable(false)[..8], RunningPositions)
    ensures forall i :: 0 <= i < 8 && i !in RunningPositions ==> FarmingTrainer.FarmingTable(false)[i].state in {Initialisation, MonsterNotFound}
  {
    RunningRulesInFarmingTable();
    forall k | 0 <= k < 6 ensures RunningPositions[k] == FarmingPosition(k) {
    }
  }

  /** Where the running table picks a handler for a message with neither
      the `init` nor the "monster not found" state, the farming table with
      dungeons off picks the same one. */
  lemma {:induction false} RunningAgreesWithFarming(rs: set<State>)
    requires Initialisation !in rs && MonsterNotFound !in rs
    requires Select(RunningTable(), rs) != SkipTurn
    ensures Select(FarmingTrainer.FarmingTable(false), rs) == Select(RunningTable(), rs)
  {
    var f := FarmingTrainer.FarmingTable(false);
    RunningEmbedding();
    EmbeddedAgrees(RunningTable(), f[..8], RunningPositions, rs);
    SelectedByPrefix(f, rs, 8);
  }

  /** `dangeon_buttons` is not one of running's categories: an update for it
      adds nothing, and a lookup in it finds no label for any marker. */
  lemma DangeonCategoryUnknown(v: View, labels: seq<string>)
    requires v.Keys == RunningCategories
    ensures UpdateView(v, DangeonButtons, labels) == v
    ensures forall sym :: !HasLabelWith(LabelsIn(v, DangeonButtons), sym)
  {
    UpdateViewNoop(v, DangeonButtons, labels);
  }

  /** `start_fighting` without a `try`: after the update, anything but an
      energy level stops the handler before the comparison; with a level it
      behaves as the farming handler does. */
  method StartFighting(reg: ButtonRegistry, event: Message, energy: Parsed) returns (effects: seq<Effect>, completed: bool)
    requires FarmingHandlers.Ready(reg, RunningCategories)
    modifies reg
    ensures FarmingHandlers.Ready(reg, RunningCategories) && reg.available.Keys == old(reg.available.Keys)
    ensures completed <==> energy.Level?
    ensures completed ==> FarmingHandlers.FightStarted(old(reg.View()), reg.View(), event, energy, effects)
    ensures !completed ==> reg.View() == UpdateView(old(reg.View()), FightZoneButtons, FlatTexts(event)) && effects == []
  {
    if !energy.Level? {
      reg.Update(event, FightZoneButtons);
      return [], false;
    }
    effects := FarmingHandlers.StartFighting(reg, event, energy);
    completed := true;
  }

  /** The plan of running's `search_next`, `None` when it stops early:
      either parser failing, an HP that is not a level, or, past the HP
      test, an energy that is not a level. */
  function RunningPlan(energy: Parsed, hp: Parsed, minHp: int): (p: Option<FarmingHandlers.Plan>)
    ensures p.None? <==> energy.Failed? || !hp.Level? || (hp.value > minHp && !energy.Level?)
    ensures p == Some(FarmingHandlers.Retreat) <==> !energy.Failed? && hp.Level? && hp.value <= minHp
    ensures p == Some(FarmingHandlers.CooldownThenSearch) <==> energy.Level? && hp.Level? && hp.value > minHp && energy.value <= 0
  {
    if energy.Failed? || !hp.Level? then None
    else if hp.value <= minHp then Some(FarmingHandlers.Retreat)
    else if !energy.Level? then None
    else if energy.value <= 0 then Some(FarmingHandlers.CooldownThenSearch)
    else Some(FarmingHandlers.Search)
  }

  /** Whenever running's `search_next` gets through, it takes the branch the
      farming one takes; with both stats read, it always gets through. */
  lemma RunningPlanAgreesWithFarming(energy: Parsed, hp: Parsed, minHp: int)
    ensures RunningPlan(energy, hp, minHp).Some? ==> RunningPlan(energy, hp, minHp).value == FarmingHandlers.SearchNextPlan(energy, hp, minHp)
    ensures energy.Level? && hp.Level? ==> RunningPlan(energy, hp, minHp).Some?
  {
  }

  /** `search_next` without a `try`: HP first, at or below the threshold
      back to town; then energy, at or below zero the cooldown before the
      search; otherwise the short pause before it. A stat that cannot be
      compared stops the handler with nothing sent. */
  method SearchNext(reg: ButtonRegistry, energy: Parsed, hp: Parsed, minHp: int) returns (effects: seq<Effect>, completed: bool)
    requires FarmingHandlers.Ready(reg, RunningCategories)
    ensures completed <==> RunningPlan(energy, hp, minHp).Some?
    ensures completed ==> FarmingHandlers.PlanCarriedOut(RunningPlan(energy, hp, minHp).value, reg.Labels(FightZoneButtons), effects)
    ensures !completed ==> effects == []
  {
    if energy.Failed? || hp.Failed? || hp.NoLevel? {
      return [], false;
    }
    if hp.value <= minHp {
      effects := FarmingHandlers.ReturnToTown(reg);
    } else if energy.NoLevel? {
      return [], false;
    } else if energy.value <= 0 {
      var _, press := reg.HandleButtonEvent(FindMonster, FightZoneButtons);
      effects := [Sleep(CooldownSeconds)] + press;
    } else {
      var _, press := reg.HandleButtonEvent(FindMonster, FightZoneButtons);
      effects := [Throttle] + press;
    }
    completed := true;
  }

  /** The effects of running `action`'s handler; `completed` is false when
      the handler stopped early. */
  ghost predicate RunningHandled(action: Action, before: View, after: View, event: Message, energy: Parsed, hp: Parsed, minHp: int, effects: seq<Effect>, completed: bool) {
    match action
    case StartFighting =>
      && (completed <==> energy.Level?)
      && (completed ==> FarmingHandlers.FightStarted(before, after, event, energy, effects))
      && (!completed ==> after == UpdateView(before, FightZoneButtons, FlatTexts(event)) && effects == [])
    case SearchNext =>
      && after == before
      && (completed <==> RunningPlan(energy, hp, minHp).Some?)
      && (completed ==> FarmingHandlers.PlanCarriedOut(RunningPlan(energy, hp, minHp).value, LabelsIn(before, FightZoneButtons), effects))
      && (!completed ==> effects == [])
    case _ => completed && FarmingTrainer.Handled(action, before, after, event, energy, hp, minHp, effects)
  }

  /** `await action(event)`: run the selected handler of the running table;
      `completed` is false when it stopped early. */
  method RunHandler(reg: ButtonRegistry, action: Action, event: Message, energy: Parsed, hp: Parsed, minHp: int) returns (effects: seq<Effect>, completed: bool)
    requires FarmingHandlers.Ready(reg, RunningCategories)
    requires RunningAction(action)
    modifies reg
    ensures FarmingHandlers.Ready(reg, RunningCategories) && reg.available.Keys == old(reg.available.Keys)
    ensures RunningHandled(action, old(reg.View()), reg.View(), event, energy, hp, minHp, effects, completed)
  {
    effects, completed := [], true;
    match action {
      case GoToFightZone => effects := FarmingHandlers.GoToFightZone(reg, event);
      case StartFighting => effects, completed := StartFighting(reg, event, energy);
      case SearchNext => effects, completed := SearchNext(reg, energy, hp, minHp);
      case InTown => effects := FarmingHandlers.InTown(reg, event);
      case GoToLocations => effects := FarmingHandlers.GoToLocations(reg);
      case SkipTurn =>
    }
  }

  /** `_message_handler` of the running trainer: mark the message read,
      select by the table and run the selected handler. */
  method HandleMessage(reg: ButtonRegistry, event: Message, energy: Parsed, hp: Parsed, minHp: int) returns (effects: seq<Effect>, completed: bool)
    requires FarmingHandlers.Ready(reg, RunningCategories)
    modifies reg
    ensures FarmingHandlers.Ready(reg, RunningCategories) && reg.available.Keys == old(reg.available.Keys)
    ensures |effects| >= 1 && effects[0] == MarkRead
    ensures RunningHandled(SelectRunning(event), old(reg.View()), reg.View(), event, energy, hp, minHp, effects[1..], completed)
  {
    var action := SelectRunning(event);
    RunningSelectsOnlyItsHandlers(Recognised(event));
    var rest;
    rest, completed := RunHandler(reg, action, event, energy, hp, minHp);
    effects := [MarkRead] + rest;
    assert effects[1..] == rest;
  }
}
