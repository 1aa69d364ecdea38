/** The farming trainer: its dispatch table, and the message handler that
    marks each game message read and runs the selected handler. The two
    settings it reads, the HP threshold and whether to farm dungeons, are
    parameters. */
module FarmingTrainer {
  import opened Text
  import opened Buttons
  import opened States
  import opened Effects
  import opened Registry
  import opened Dispatch
  import FarmingHandlers

  const CapchaNotice := "capcha!"

  /** The farming table, in order. The HP-recovered entry is a lambda that
      reads `farm_dangeons` when it runs. */
  function FarmingTable(farmDangeons: bool): (t: seq<Rule>)
    ensures |t| == 14
    ensures forall j :: 0 <= j < |t| ==> t[j].action != SkipTurn
    ensures t[7] == Rule(HpRecovered, if farmDangeons then PickDangeon else GoToLocations)
  {
    [ Rule(Initialisation, Init),
      Rule(Locations, GoToFightZone),
      Rule(MonsterFound, StartFighting),
      Rule(MonsterNotFound, SearchNext),
      Rule(Win, SearchNext),
      Rule(Town, InTown),
      Rule(Alive, InTown),
      Rule(HpRecovered, if farmDangeons then PickDangeon else GoToLocations),
      Rule(Dangeon, GoToDangeon),
      Rule(DangeonChoice, ChooseDangeon),
      Rule(DangeonApproval, StartDangeon),
      Rule(DangeonFinished, Relaxing),
      Rule(Capcha, ResolveCapcha),
      Rule(EmptyEnergy, Relaxing) ]
  }

  /** `_select_action_by_event` of the farming trainer. */
  function SelectFarming(m: Message, farmDangeons: bool): Action {
    Select(FarmingTable(farmDangeons), Recognised(m))
  }

  /** A message with a keyboard and the `кнопочки` text always starts
      `init`, whatever else it says. */
  lemma InitAlwaysWins(m: Message, farmDangeons: bool)
    requires HasButtons(m) && Contains(Normalised(m), InitPattern)
    ensures SelectFarming(m, farmDangeons) == Init
  {
    assert Holds(Initialisation, m);
    assert NoneBefore(FarmingTable(farmDangeons), Recognised(m), 0);
  }

  /** The handlers with a button-gated state in their rules. */
  lemma GatedRules(farmDangeons: bool)
    ensures forall j :: 0 <= j < 14 && FarmingTable(farmDangeons)[j].action in {Init, GoToFightZone, ResolveCapcha} ==> ButtonGated(FarmingTable(farmDangeons)[j].state)
  {
  }

  /** `init`, `go_to_fight_zone` and `resolve_capcha` are selected only
      through a button-gated state. */
  lemma {:induction false} GatedHandlersNeedGatedState(rs: set<State>, farmDangeons: bool)
    requires forall s :: s in rs ==> !ButtonGated(s)
    ensures Select(FarmingTable(farmDangeons), rs) !in {Init, GoToFightZone, ResolveCapcha}
  {
    var t := FarmingTable(farmDangeons);
    var k := FirstMatch(t, rs);
    SelectAtFirstMatch(t, rs);
    GatedRules(farmDangeons);
    if k < 14 {
      assert !ButtonGated(t[k].state);
    }
  }

  /** Without a keyboard, neither `init`, `go_to_fight_zone` nor
      `resolve_capcha` is selected. */
  lemma {:induction false} NoButtonsNoGatedHandler(m: Message, farmDangeons: bool)
    requires !HasButtons(m)
    ensures SelectFarming(m, farmDangeons) !in {Init, GoToFightZone, ResolveCapcha}
  {
    var rs := Recognised(m);
    forall s | s in rs ensures !ButtonGated(s) {
      NoButtonsNoGatedState(m);
    }
    GatedHandlersNeedGatedState(rs, farmDangeons);
  }

  /** The skip handler is selected exactly when no state of the table is
      recognised. */
  lemma SkipOnlyWithoutMatch(rs: set<State>, farmDangeons: bool)
    ensures Select(FarmingTable(farmDangeons), rs) == SkipTurn <==> forall j :: 0 <= j < 14 ==> FarmingTable(farmDangeons)[j].state !in rs
  {
    SkipExactlyWhenNoMatch(FarmingTable(farmDangeons), rs);
  }

  /** The rules whose handler is `search_next`, `in_town`, the HP-recovered
      one, or `relaxing`. */
  lemma RulePositions(farmDangeons: bool)
    ensures forall j :: 0 <= j < 14 ==> (FarmingTable(farmDangeons)[j].action == SearchNext <==> j == 3 || j == 4)
    ensures forall j :: 0 <= j < 14 ==> (FarmingTable(farmDangeons)[j].action == InTown <==> j == 5 || j == 6)
    ensures forall j :: 0 <= j < 14 ==> (FarmingTable(farmDangeons)[j].action in {GoToLocations, PickDangeon} <==> j == 7)
    ensures forall j :: 0 <= j < 14 ==> (FarmingTable(farmDangeons)[j].action == Relaxing <==> j == 11 || j == 13)
  {
  }

  /** `search_next` is reached through "monster not found" and through a
      win, and through nothing else. */
  lemma {:induction false} SearchNextRoutes(rs: set<State>, farmDangeons: bool)
    ensures Select(FarmingTable(farmDangeons), rs) == SearchNext <==>
      Initialisation !in rs && Locations !in rs && MonsterFound !in rs && (MonsterNotFound in rs || Win in rs)
  {
    var t := FarmingTable(farmDangeons);
    var k := FirstMatch(t, rs);
    SelectAtFirstMatch(t, rs);
    RulePositions(farmDangeons);
    if Initialisation !in rs && Locations !in rs && MonsterFound !in rs {
      if MonsterNotFound in rs {
        FirstMatchIs(t, rs, 3);
      } else if Win in rs {
        FirstMatchIs(t, rs, 4);
      }
    }
    if Select(t, rs) == SearchNext {
      assert k == 3 || k == 4;
      assert t[0].state !in rs && t[1].state !in rs && t[2].state !in rs;
      assert t[k].state in rs;
    }
  }

  /** `in_town` is reached through the town and through the "alive again"
      message, and through nothing else. */
  lemma {:induction false} InTownRoutes(rs: set<State>, farmDangeons: bool)
    ensures Select(FarmingTable(farmDangeons), rs) == InTown <==>
      Initialisation !in rs && Locations !in rs && MonsterFound !in rs && MonsterNotFound !in rs && Win !in rs && (Town in rs || Alive in rs)
  {
    var t := FarmingTable(farmDangeons);
    var k := FirstMatch(t, rs);
    SelectAtFirstMatch(t, rs);
    RulePositions(farmDangeons);
    if Initialisation !in rs && Locations !in rs && MonsterFound !in rs && MonsterNotFound !in rs && Win !in rs {
      if Town in rs {
        FirstMatchIs(t, rs, 5);
      } else if Alive in rs {
        FirstMatchIs(t, rs, 6);
      }
    }
    if Select(t, rs) == InTown {
      assert k == 5 || k == 6;
      assert t[0].state !in rs && t[1].state !in rs && t[2].state !in rs && t[3].state !in rs && t[4].state !in rs;
      assert t[k].state in rs;
    }
  }

  /** "HP recovered" leads back to the locations, or to the dungeon menu
      when dungeons are farmed, exactly when none of the seven states ahead
      of it is recognised; those two handlers are reached in no other way. */
  lemma {:induction false} HpRecoveredRoute(rs: set<State>, farmDangeons: bool)
    ensures Select(FarmingTable(farmDangeons), rs) in {GoToLocations, PickDangeon} <==> HpRecovered in rs && NoneBefore(FarmingTable(farmDangeons), rs, 7)
    ensures Select(FarmingTable(farmDangeons), rs) != (if farmDangeons then GoToLocations else PickDangeon)
  {
    var t := FarmingTable(farmDangeons);
    var k := FirstMatch(t, rs);
    SelectAtFirstMatch(t, rs);
    RulePositions(farmDangeons);
    if HpRecovered in rs && NoneBefore(t, rs, 7) {
      FirstMatchIs(t, rs, 7);
    }
    if k < 14 && t[k].action in {GoToLocations, PickDangeon} {
      assert k == 7;
    }
  }

  /** An empty-energy message reaches `relaxing` exactly when no earlier
      state is recognised, or when the first one recognised is a finished
      dungeon, which relaxes too. */
  lemma {:induction false} EmptyEnergyRelaxesLast(rs: set<State>, farmDangeons: bool)
    requires EmptyEnergy in rs
    ensures Select(FarmingTable(farmDangeons), rs) == Relaxing <==>
      NoneBefore(FarmingTable(farmDangeons), rs, 13) || (NoneBefore(FarmingTable(farmDangeons), rs, 11) && DangeonFinished in rs)
  {
    var t := FarmingTable(farmDangeons);
    var k := FirstMatch(t, rs);
    SelectAtFirstMatch(t, rs);
    RulePositions(farmDangeons);
    assert t[13].state in rs;
    assert k <= 13;
    if NoneBefore(t, rs, 13) {
      assert k == 13;
    }
    if NoneBefore(t, rs, 11) && DangeonFinished in rs {
      assert t[11].state in rs;
      assert k == 11;
    }
  }

  /** The effects of running `action`'s handler on `event`, with the registry
      view going from `before` to `after`. */
  ghost predicate Handled(action: Action, before: View, after: View, event: Message, energy: Parsed, hp: Parsed, minHp: int, effects: seq<Effect>) {
    match action
    case Init => FarmingHandlers.Initialised(before, after, event, energy, effects)
    case GoToFightZone => FarmingHandlers.UpdatedThenPressed(before, after, event, ChoseLocationButtons, ToFightZone, effects)
    case StartFighting => FarmingHandlers.FightStarted(before, after, event, energy, effects)
    case SearchNext => after == before && FarmingHandlers.PlanCarriedOut(FarmingHandlers.SearchNextPlan(energy, hp, minHp), LabelsIn(before, FightZoneButtons), effects)
    case InTown => FarmingHandlers.UpdatedThenPressed(before, after, event, TownButtons, Heal, effects)
    case GoToLocations => after == before && MarkerPressed(LabelsIn(before, TownButtons), ToLocations, effects)
    case PickDangeon => after == before && MarkerPressed(LabelsIn(before, TownButtons), ToDangeons, effects)
    case GoToDangeon => FarmingHandlers.UpdatedThenPressed(before, after, event, DangeonButtons, ToDangeons, effects)
    case ChooseDangeon => after == before && effects == [Throttle, SendGame(FarmingHandlers.DangeonCommand)]
    case StartDangeon => after == before && FarmingHandlers.DangeonStarted(event, effects)
    case Relaxing => after == before && effects == [Sleep(CooldownSeconds), SendGame(FarmingHandlers.ButtonsCommand)]
    case ResolveCapcha => after == before && effects == [NotifyChannel(CapchaNotice)]
    case SkipTurn => after == before && effects == []
  }

  /** `await action(event)`: run the selected handler. */
  method RunHandler(reg: ButtonRegistry, action: Action, event: Message, energy: Parsed, hp: Parsed, minHp: int) returns (effects: seq<Effect>)
    requires FarmingHandlers.Ready(reg, FarmingCategories)
    modifies reg
    ensures FarmingHandlers.Ready(reg, FarmingCategories) && reg.available.Keys == old(reg.available.Keys)
    ensures Handled(action, old(reg.View()), reg.View(), event, energy, hp, minHp, effects)
  {
    effects := [];
    match action {
      case Init => effects := FarmingHandlers.Init(reg, event, energy);
      case GoToFightZone => effects := FarmingHandlers.GoToFightZone(reg, event);
      case StartFighting => effects := FarmingHandlers.StartFighting(reg, event, energy);
      case SearchNext => effects := FarmingHandlers.SearchNext(reg, energy, hp, minHp);
      case InTown => effects := FarmingHandlers.InTown(reg, event);
      case GoToLocations => effects := FarmingHandlers.GoToLocations(reg);
      case PickDangeon => effects := FarmingHandlers.PickDangeon(reg);
      case GoToDangeon => effects := FarmingHandlers.GoToDangeon(reg, event);
      case ChooseDangeon => effects := FarmingHandlers.ChooseDangeon();
      case StartDangeon => effects := FarmingHandlers.StartDangeon(event);
      case Relaxing => effects := FarmingHandlers.Relaxing();
      case ResolveCapcha => effects := [NotifyChannel(CapchaNotice)];
      case SkipTurn =>
    }
  }

  /** `_message_handler`: mark the message read, select by the table and run
      the selected handler. Logging and the event counter are left out. */
  method HandleMessage(reg: ButtonRegistry, event: Message, energy: Parsed, hp: Parsed, minHp: int, farmDangeons: bool) returns (effects: seq<Effect>)
    requires FarmingHandlers.Ready(reg, FarmingCategories)
    modifies reg
    ensures FarmingHandlers.Ready(reg, FarmingCategories) && reg.available.Keys == old(reg.available.Keys)
    ensures |effects| >= 1 && effects[0] == MarkRead
    ensures Handled(SelectFarming(event, farmDangeons), old(reg.View()), reg.View(), event, energy, hp, minHp, effects[1..])
  {
    var action := SelectFarming(event, farmDangeons);
    var rest := RunHandler(reg, action, event, energy, hp, minHp);
    effects := [MarkRead] + rest;
    assert effects[1..] == rest;
  }
}
