/** The farming trainer's handlers. Each one may update a category of the
    button registry from the event's keyboard and then performs its
    outgoing effects, which are returned in order. Stat lines are read by
    parsers outside this model: `energy` and `hp` are what they produced for
    the event's text, a level, no level, or an exception. */
module FarmingHandlers {
  import opened Wrappers
  import opened Text
  import opened Buttons
  import opened Effects
  import opened Registry
  import Dispatch

  const YesLabel := "✅Да"
  const DangeonCommand := "/go_dange_10000"
  const ButtonsCommand := "/buttons"

  /** The registry holds (at least) the categories in `cats`, duplicate-free. */
  ghost predicate Ready(reg: ButtonRegistry, cats: set<string>)
    reads reg
  {
    reg.Valid() && cats <= reg.available.Keys
  }

  // ---------------------------------------------------------------------
  // Outcomes, stated on label sets so that the order `list(set(...))`
  // happens to produce does not matter.

  /** The category was updated from the event's keyboard, then the marker
      block pressed a stored label of that category containing the marker,
      if there is one. */
  ghost predicate UpdatedThenPressed(before: View, after: View, event: Message, category: string, marker: string, effects: seq<Effect>) {
    && after == UpdateView(before, category, FlatTexts(event))
    && MarkerPressed(LabelsIn(after, category), marker, effects)
  }

  /** The one-hour wait `start_fighting` performs first: only when the
      energy is known and at most zero. */
  function EnergyCooldown(energy: Parsed): (pre: seq<Effect>)
    ensures pre != [] <==> energy.Level? && energy.value <= 0
    ensures pre != [] ==> pre == [Sleep(CooldownSeconds)]
  {
    var e := Known(energy);
    if e.Some? && e.value <= 0 then [Sleep(CooldownSeconds)] else []
  }

  /** `start_fighting`: fight-zone labels updated, the cooldown when energy
      is exhausted, then the attack press if an attack label is stored. */
  ghost predicate FightStarted(before: View, after: View, event: Message, energy: Parsed, effects: seq<Effect>) {
    var pre := EnergyCooldown(energy);
    && after == UpdateView(before, FightZoneButtons, FlatTexts(event))
    && |pre| <= |effects| && effects[..|pre|] == pre
    && MarkerPressed(LabelsIn(after, FightZoneButtons), Attack, effects[|pre|..])
  }

  /** The three ways `search_next` can go. */
  datatype Plan = Retreat | CooldownThenSearch | Search

  /** `search_next`'s choice. An exception from either parser makes both
      stats unknown; a known HP at or below the threshold goes back to town
      before energy is looked at; known energy at or below zero waits first;
      everything else, unknown stats included, searches straight away. */
  function SearchNextPlan(energy: Parsed, hp: Parsed, minHp: int): (p: Plan)
    ensures energy.Failed? || hp.Failed? ==> p == Search
    ensures p == Retreat <==> !energy.Failed? && hp.Level? && hp.value <= minHp
    ensures p == CooldownThenSearch <==> !hp.Failed? && energy.Level? && energy.value <= 0 && !(hp.Level? && hp.value <= minHp)
  {
    var (e, h) := if energy.Failed? || hp.Failed? then (None, None) else (Known(energy), Known(hp));
    if h.Some? && h.value <= minHp then Retreat
    else if e.Some? && e.value <= 0 then CooldownThenSearch
    else Search
  }

  /** The effects of a plan on a registry whose fight-zone labels are
      `labels`: back to town through the marker block, or the find-monster
      press preceded by the cooldown or by the short pause. */
  ghost predicate PlanCarriedOut(p: Plan, labels: set<string>, effects: seq<Effect>) {
    match p
    case Retreat => MarkerPressed(labels, ToTown, effects)
    case CooldownThenSearch => |effects| >= 1 && effects[0] == Sleep(CooldownSeconds) && Pressed(labels, FindMonster, effects[1..])
    case Search => |effects| >= 1 && effects[0] == Throttle && Pressed(labels, FindMonster, effects[1..])
  }

  /** Some button of the list has a label containing `marker`. */
  predicate AnyButtonWith(flat: seq<Button>, marker: string) {
    exists i | 0 <= i < |flat| :: Contains(flat[i].text, marker)
  }

  /** The markers `init` looks for, in priority order, and the handler it
      delegates to for each. */
  const InitMarkers := [Heal, ToFightZone, Attack, ToDangeons]
  const InitTargets := [Dispatch.InTown, Dispatch.GoToFightZone, Dispatch.StartFighting, Dispatch.GoToDangeon]

  /** `init`'s choice: the handler of the first marker, in priority order,
      that some button shows; none without buttons or markers. */
  function InitChoice(flat: seq<Button>): (r: Option<Dispatch.Action>)
    ensures r.None? <==> flat == [] || forall i :: 0 <= i < |InitMarkers| ==> !AnyButtonWith(flat, InitMarkers[i])
    ensures r.Some? ==> exists i :: 0 <= i < |InitMarkers| && r.value == InitTargets[i] && AnyButtonWith(flat, InitMarkers[i])
                                && forall j :: 0 <= j < i ==> !AnyButtonWith(flat, InitMarkers[j])
  {
    if flat == [] then None
    else if AnyButtonWith(flat, Heal) then
      assert InitMarkers[0] == Heal;
      Some(Dispatch.InTown)
    else if AnyButtonWith(flat, ToFightZone) then
      assert InitMarkers[1] == ToFightZone;
      Some(Dispatch.GoToFightZone)
    else if AnyButtonWith(flat, Attack) then
      assert InitMarkers[2] == Attack;
      Some(Dispatch.StartFighting)
    else if AnyButtonWith(flat, ToDangeons) then
      assert InitMarkers[3] == ToDangeons;
      Some(Dispatch.GoToDangeon)
    else None
  }

  /** `init`'s outcome: that of the handler it delegates to, or nothing. */
  ghost predicate Initialised(before: View, after: View, event: Message, energy: Parsed, effects: seq<Effect>) {
    match InitChoice(GetButtonsFlat(event))
    case None => after == before && effects == []
    case Some(a) =>
      if a == Dispatch.InTown then UpdatedThenPressed(before, after, event, TownButtons, Heal, effects)
      else if a == Dispatch.GoToFightZone then UpdatedThenPressed(before, after, event, ChoseLocationButtons, ToFightZone, effects)
      else if a == Dispatch.StartFighting then FightStarted(before, after, event, energy, effects)
      else UpdatedThenPressed(before, after, event, DangeonButtons, ToDangeons, effects)
  }

  // ---------------------------------------------------------------------
  // The handlers.

  /** `init`: delegate by button marker, HEAL first, then TO_FIGHT_ZONE,
      ATTACK and TO_DANGEONS; do nothing without buttons or markers. */
  method Init(reg: ButtonRegistry, event: Message, energy: Parsed) returns (effects: seq<Effect>)
    requires Ready(reg, FarmingCategories)
    modifies reg
    ensures Ready(reg, FarmingCategories) && reg.available.Keys == old(reg.available.Keys)
    ensures Initialised(old(reg.View()), reg.View(), event, energy, effects)
  {
    var buttons := GetButtonsFlat(event);
    effects := [];
    if buttons != [] {
      if AnyButtonWith(buttons, Heal) {
        effects := InTown(reg, event);
      } else if AnyButtonWith(buttons, ToFightZone) {
        effects := GoToFightZone(reg, event);
      } else if AnyButtonWith(buttons, Attack) {
        effects := StartFighting(reg, event, energy);
      } else if AnyButtonWith(buttons, ToDangeons) {
        effects := GoToDangeon(reg, event);
      }
    }
  }

  /** `go_to_fight_zone`: store the location labels, then press one showing
      TO_FIGHT_ZONE if there is one. */
  method GoToFightZone(reg: ButtonRegistry, event: Message) returns (effects: seq<Effect>)
    requires Ready(reg, {ChoseLocationButtons})
    modifies reg
    ensures Ready(reg, {ChoseLocationButtons}) && reg.available.Keys == old(reg.available.Keys)
    ensures UpdatedThenPressed(old(reg.View()), reg.View(), event, ChoseLocationButtons, ToFightZone, effects)
  {
    reg.Update(event, ChoseLocationButtons);
    effects := reg.PressMarked(ChoseLocationButtons, ToFightZone);
  }

  /** `start_fighting`: store the fight-zone labels, wait an hour when the
      energy is known to be exhausted, then press an attack label if one is
      stored. */
  method StartFighting(reg: ButtonRegistry, event: Message, energy: Parsed) returns (effects: seq<Effect>)
    requires Ready(reg, {FightZoneButtons})
    modifies reg
    ensures Ready(reg, {FightZoneButtons}) && reg.available.Keys == old(reg.available.Keys)
    ensures FightStarted(old(reg.View()), reg.View(), event, energy, effects)
  {
    reg.Update(event, FightZoneButtons);
    effects := [];
    var e := Known(energy);
    if e.Some? && e.value <= 0 {
      effects := [Sleep(CooldownSeconds)];
    }
    var press := reg.PressMarked(FightZoneButtons, Attack);
    effects := effects + press;
    assert effects[|EnergyCooldown(energy)|..] == press;
  }

  /** `search_next`: go back to town on low HP, otherwise search for the next
      monster, after the cooldown when energy is exhausted. The registry is
      only read. */
  method SearchNext(reg: ButtonRegistry, energy: Parsed, hp: Parsed, minHp: int) returns (effects: seq<Effect>)
    requires Ready(reg, {FightZoneButtons})
    ensures PlanCarriedOut(SearchNextPlan(energy, hp, minHp), reg.Labels(FightZoneButtons), effects)
  {
    var e, h := Known(energy), Known(hp);
    if energy.Failed? || hp.Failed? {
      e, h := None, None;
    }
    if h.Some? && h.value <= minHp {
      effects := ReturnToTown(reg);
    } else if e.Some? && e.value <= 0 {
      var _, press := reg.HandleButtonEvent(FindMonster, FightZoneButtons);
      effects := [Sleep(CooldownSeconds)] + press;
    } else {
      var _, press := reg.HandleButtonEvent(FindMonster, FightZoneButtons);
      effects := [Throttle] + press;
    }
  }

  /** `return_to_town`: press a stored fight-zone label showing TO_TOWN. */
  method ReturnToTown(reg: ButtonRegistry) returns (effects: seq<Effect>)
    requires Ready(reg, {FightZoneButtons})
    ensures MarkerPressed(reg.Labels(FightZoneButtons), ToTown, effects)
  {
    effects := reg.PressMarked(FightZoneButtons, ToTown);
  }

  /** `in_town`: store the town labels, then press one showing HEAL. */
  method InTown(reg: ButtonRegistry, event: Message) returns (effects: seq<Effect>)
    requires Ready(reg, {TownButtons})
    modifies reg
    ensures Ready(reg, {TownButtons}) && reg.available.Keys == old(reg.available.Keys)
    ensures UpdatedThenPressed(old(reg.View()), reg.View(), event, TownButtons, Heal, effects)
  {
    reg.Update(event, TownButtons);
    effects := reg.PressMarked(TownButtons, Heal);
  }

  /** `go_to_locations`: press a stored town label showing TO_LOCATIONS. */
  method GoToLocations(reg: ButtonRegistry) returns (effects: seq<Effect>)
    requires Ready(reg, {TownButtons})
    ensures MarkerPressed(reg.Labels(TownButtons), ToLocations, effects)
  {
    effects := reg.PressMarked(TownButtons, ToLocations);
  }

  /** `pick_dangeon`: press a stored town label showing TO_DANGEONS. */
  method PickDangeon(reg: ButtonRegistry) returns (effects: seq<Effect>)
    requires Ready(reg, {TownButtons})
    ensures MarkerPressed(reg.Labels(TownButtons), ToDangeons, effects)
  {
    effects := reg.PressMarked(TownButtons, ToDangeons);
  }

  /** `go_to_dangeon`: store the dungeon labels, then press one showing
      TO_DANGEONS. */
  method GoToDangeon(reg: ButtonRegistry, event: Message) returns (effects: seq<Effect>)
    requires Ready(reg, {DangeonButtons})
    modifies reg
    ensures Ready(reg, {DangeonButtons}) && reg.available.Keys == old(reg.available.Keys)
    ensures UpdatedThenPressed(old(reg.View()), reg.View(), event, DangeonButtons, ToDangeons, effects)
  {
    reg.Update(event, DangeonButtons);
    effects := reg.PressMarked(DangeonButtons, ToDangeons);
  }

  /** `choose_dangeon`: after the short pause, always the dungeon command. */
  method ChooseDangeon() returns (effects: seq<Effect>)
    ensures effects == [Throttle, SendGame(DangeonCommand)]
  {
    effects := [Throttle, SendGame(DangeonCommand)];
  }

  /** The keyboard rows of a message; none without a keyboard. */
  function Rows(event: Message): seq<seq<Button>> {
    if event.buttons.Some? then event.buttons.value else []
  }

  /** Button `c` of row `r` is labelled exactly `✅Да`. */
  predicate IsYesAt(rows: seq<seq<Button>>, r: int, c: int) {
    0 <= r < |rows| && 0 <= c < |rows[r]| && rows[r][c].text == YesLabel
  }

  /** No button before row `r`, column `c` in row-major order is `✅Да`. */
  predicate NoYesBefore(rows: seq<seq<Button>>, r: int, c: int) {
    forall r', c' :: 0 <= r' < |rows| && 0 <= c' < |rows[r']| && (r' < r || (r' == r && c' < c)) ==> rows[r'][c'].text != YesLabel
  }

  /** The effects click the first button, in row-major order, whose label is
      exactly `✅Да`, and are empty when there is none. */
  ghost predicate DangeonStarted(event: Message, effects: seq<Effect>) {
    && (effects == [] <==> NoYesBefore(Rows(event), |Rows(event)|, 0))
    && (effects != [] ==> exists r, c :: IsYesAt(Rows(event), r, c) && NoYesBefore(Rows(event), r, c) && effects == [Click(r, c)])
  }

  /** `start_dangeon`: click the first button, in row-major order, whose
      label is exactly `✅Да`; no click when there is none. */
  method StartDangeon(event: Message) returns (effects: seq<Effect>)
    ensures DangeonStarted(event, effects)
  {
    effects := [];
    var rows := Rows(event);
    if event.buttons.Some? && event.buttons.value != [] {
      var r := 0;
      while r < |rows|
        invariant 0 <= r <= |rows|
        invariant NoYesBefore(rows, r, 0)
      {
        var c := 0;
        while c < |rows[r]|
          invariant 0 <= c <= |rows[r]|
          invariant NoYesBefore(rows, r, c)
        {
          if rows[r][c].text == YesLabel {
            effects := [Click(r, c)];
            assert IsYesAt(rows, r, c);
            return;
          }
          c := c + 1;
        }
        r := r + 1;
      }
    }
  }

  /** `relaxing`: wait the one-hour cooldown, then ask for the keyboard. */
  method Relaxing() returns (effects: seq<Effect>)
    ensures effects == [Sleep(CooldownSeconds), SendGame(ButtonsCommand)]
  {
    effects := [Sleep(CooldownSeconds), SendGame(ButtonsCommand)];
  }
}
