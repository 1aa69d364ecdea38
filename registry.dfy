/** The registry of known button labels, per category, that the trainers
    keep as process-wide state: it accumulates the labels of every keyboard
    seen in a category and is searched by marker character. */
module Registry {
  import opened Wrappers
  import opened Text
  import opened Buttons
  import opened Effects

  const TownButtons := "town_buttons"
  const ChoseLocationButtons := "chose_location_buttons"
  const FightZoneButtons := "fight_zone_buttons"
  const DangeonButtons := "dangeon_buttons"

  /** The categories of the running trainer's registry. */
  const RunningCategories: set<string> := {TownButtons, ChoseLocationButtons, FightZoneButtons}

  /** The categories of the farming handlers' registry. */
  const FarmingCategories: set<string> := RunningCategories + {DangeonButtons}

  predicate NoDups(s: seq<string>) {
    forall i, j :: 0 <= i < j < |s| ==> s[i] != s[j]
  }

  function Elems(s: seq<string>): set<string> {
    set x | x in s
  }

  lemma ElemsAppend(s: seq<string>, t: seq<string>)
    ensures Elems(s + t) == Elems(s) + Elems(t)
  {
  }

  /** `list(set(s))`: the same labels, each once. The order Python gives is
      unspecified; this keeps first occurrences. */
  function Dedup(s: seq<string>): (r: seq<string>)
    ensures NoDups(r)
    ensures Elems(r) == Elems(s)
  {
    if s == [] then []
    else
      var rest := Dedup(s[..|s| - 1]);
      assert s == s[..|s| - 1] + [s[|s| - 1]];
      ElemsAppend(s[..|s| - 1], [s[|s| - 1]]);
      if s[|s| - 1] in rest then rest else rest + [s[|s| - 1]]
  }

  /** `next((b for b in labels if symbol in b), None)`: the first label that
      contains `symbol`, if any. */
  function FirstContaining(labels: seq<string>, symbol: string): (r: Option<string>)
    ensures r.Some? ==> r.value in labels && Contains(r.value, symbol)
    ensures r.None? <==> forall l :: l in labels ==> !Contains(l, symbol)
  {
    if labels == [] then None
    else if Contains(labels[0], symbol) then Some(labels[0])
    else FirstContaining(labels[1..], symbol)
  }

  /** The registry as label sets: what the process knows, order aside. */
  type View = map<string, set<string>>

  /** `available_buttons.get(category, [])` as a set. */
  function LabelsIn(v: View, category: string): set<string> {
    if category in v then v[category] else {}
  }

  /** `any(marker in b for b in labels)` */
  predicate HasLabelWith(labels: set<string>, marker: string) {
    exists l | l in labels :: Contains(l, marker)
  }

  /** An update in label sets: the named category gains the new labels. */
  function UpdateView(v: View, category: string, labels: seq<string>): (r: View)
    ensures r.Keys == v.Keys
    ensures forall c :: c in v ==> v[c] <= r[c]
    ensures forall c :: c in v && c != category ==> r[c] == v[c]
    ensures category in v ==> Elems(labels) <= r[category] && r[category] - v[category] <= Elems(labels)
  {
    if category in v then v[category := v[category] + Elems(labels)] else v
  }

  /** Updating twice with the same keyboard gives the same label sets as
      updating once. */
  lemma UpdateViewIdempotent(v: View, category: string, labels: seq<string>)
    ensures UpdateView(UpdateView(v, category, labels), category, labels) == UpdateView(v, category, labels)
  {
  }

  /** An update without labels, or for a category the registry does not
      have, changes nothing. */
  lemma UpdateViewNoop(v: View, category: string, labels: seq<string>)
    requires labels == [] || category !in v
    ensures UpdateView(v, category, labels) == v
  {
    if category in v {
      assert Elems(labels) == {};
      assert v[category] + Elems(labels) == v[category];
      assert v[category := v[category] + Elems(labels)] == v;
    }
  }

  /** What `handle_button_event` sends: when some label of the category
      contains the symbol, one such label after the short pause; otherwise
      nothing. */
  ghost predicate Pressed(labels: set<string>, symbol: string, effects: seq<Effect>) {
    if HasLabelWith(labels, symbol) then
      exists l :: l in labels && Contains(l, symbol) && effects == [Throttle, SendGame(l)]
    else
      effects == []
  }

  /** What the `if any(...): wait; handle_button_event(next(...))` block of
      the handlers sends: a pause, then the press, when some label contains
      the marker; otherwise nothing. */
  ghost predicate MarkerPressed(labels: set<string>, marker: string, effects: seq<Effect>) {
    if HasLabelWith(labels, marker) then
      exists l :: l in labels && Contains(l, marker) && effects == [Throttle, Throttle, SendGame(l)]
    else
      effects == []
  }

  /** The label sets of a concrete registry. */
  ghost function ViewOf(m: map<string, seq<string>>): View {
    map c | c in m :: Elems(m[c])
  }

  /** `{key: list(set(val)) for key, val in available_buttons.items()}` */
  function DedupAll(m: map<string, seq<string>>): (r: map<string, seq<string>>)
    ensures r.Keys == m.Keys
    ensures forall c :: c in r ==> NoDups(r[c])
  {
    map c | c in m :: Dedup(m[c])
  }

  /** De-duplicating every category keeps every label set. */
  lemma DedupAllKeepsView(m: map<string, seq<string>>)
    ensures ViewOf(DedupAll(m)) == ViewOf(m)
  {
    var r := DedupAll(m);
    forall c | c in m ensures ViewOf(r)[c] == ViewOf(m)[c] {
      assert r[c] == Dedup(m[c]);
    }
  }

  /** Appending labels to one category is `UpdateView` on the label sets. */
  lemma AppendIsUpdateView(m: map<string, seq<string>>, category: string, labels: seq<string>)
    requires category in m
    ensures ViewOf(m[category := m[category] + labels]) == UpdateView(ViewOf(m), category, labels)
  {
    ElemsAppend(m[category], labels);
    var a, b := ViewOf(m[category := m[category] + labels]), UpdateView(ViewOf(m), category, labels);
    forall c | c in a ensures a[c] == b[c] {
    }
  }

  class ButtonRegistry {
    /** `available_buttons`: category name to the labels stored for it. */
    var available: map<string, seq<string>>

    /** Every category list is duplicate-free. */
    ghost predicate Valid()
      reads this
    {
      forall c :: c in available ==> NoDups(available[c])
    }

    ghost function View(): View
      reads this
    {
      ViewOf(available)
    }

    /** `available_buttons.get(category, [])`, as a set. */
    function Labels(category: string): (r: set<string>)
      reads this
      ensures r == LabelsIn(View(), category)
    {
      if category in available then Elems(available[category]) else {}
    }

    /** A registry with the given categories, all empty. */
    constructor (categories: set<string>)
      ensures Valid()
      ensures available.Keys == categories
      ensures forall c :: c in categories ==> available[c] == []
    {
      available := map c | c in categories :: [];
    }

    /** `update_available_buttons`: with a non-empty keyboard, append every
        label to the named category (when the registry has it), then
        de-duplicate every category; without one, change nothing. */
    method Update(event: Message, category: string)
      requires Valid()
      modifies this
      ensures Valid()
      ensures available.Keys == old(available.Keys)
      ensures View() == UpdateView(old(View()), category, FlatTexts(event))
      ensures GetButtonsFlat(event) == [] ==> available == old(available)
    {
      var buttons := GetButtonsFlat(event);
      if buttons != [] {
        if category in available {
          var i := 0;
          assert old(available)[category] + Texts(buttons[..0]) == old(available)[category];
          assert available == old(available)[category := old(available)[category] + Texts(buttons[..0])];
          while i < |buttons|
            invariant 0 <= i <= |buttons|
            invariant available == old(available)[category := old(available)[category] + Texts(buttons[..i])]
          {
            assert Texts(buttons[..i + 1]) == Texts(buttons[..i]) + [buttons[i].text];
            assert old(available)[category] + Texts(buttons[..i + 1]) == available[category] + [buttons[i].text];
            available := available[category := available[category] + [buttons[i].text]];
            i := i + 1;
          }
          assert buttons[..i] == buttons;
          AppendIsUpdateView(old(available), category, FlatTexts(event));
        } else {
          UpdateViewNoop(View(), category, FlatTexts(event));
        }
        DedupAllKeepsView(available);
        available := DedupAll(available);
      } else {
        UpdateViewNoop(View(), category, FlatTexts(event));
      }
    }

    /** `handle_button_event`: look up a label of the category containing
        the symbol and, when there is one (and it is non-empty), send it
        after the short pause. The registry is only read. */
    method HandleButtonEvent(symbol: string, category: string) returns (pressed: bool, effects: seq<Effect>)
      ensures pressed <==> effects != []
      ensures pressed ==> exists l :: l in Labels(category) && Contains(l, symbol) && effects == [Throttle, SendGame(l)]
      ensures symbol != "" ==> (pressed <==> HasLabelWith(Labels(category), symbol))
      ensures symbol != "" ==> Pressed(Labels(category), symbol, effects)
    {
      var buttons := if category in available then available[category] else [];
      var button := FirstContaining(buttons, symbol);
      if button.Some? && symbol != "" {
        ContainsNonEmpty(button.value, symbol);
      }
      if button.Some? && button.value != "" {
        pressed, effects := true, [Throttle, SendGame(button.value)];
      } else {
        pressed, effects := false, [];
      }
    }

    /** The marker block shared by the handlers: when a stored label of the
        category contains the marker, pause, pick the first such label and
        press it through `HandleButtonEvent`; otherwise do nothing. */
    method PressMarked(category: string, marker: string) returns (effects: seq<Effect>)
      requires category in available && marker != ""
      ensures MarkerPressed(Labels(category), marker, effects)
    {
      if HasLabelWith(Labels(category), marker) {
        var b := FirstContaining(available[category], marker);
        ContainsNonEmpty(b.value, marker);
        ContainsSelf(b.value);
        var pressed, press := HandleButtonEvent(b.value, category);
        var l :| l in Labels(category) && Contains(l, b.value) && press == [Throttle, SendGame(l)];
        ContainsTransitive(l, b.value, marker);
        effects := [Throttle] + press;
      } else {
        effects := [];
      }
    }
  }
}
