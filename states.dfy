/** The state classifier: one predicate per game situation, each a
    substring test on the normalised message text, some of them also
    demanding a non-empty keyboard. */
module States {
  import opened Text
  import opened Buttons

  const WinPattern := "ты одержал победу"
  const LosePatterns := {"ты воскреснешь в", "к сожалению ты умер"}
  const AlivePatterns := {"ты снова жив", "ты снова в строю"}
  const HpRecoveredPattern := "здоровье пополнено"
  const EmptyEnergyPatterns := {"недостаточно энергии", "[у кого-то в группе меньше 2 единиц энергии]"}
  const EnergyRecoveredPattern := "к энергии"
  const LocationsPattern := "пора в бой"
  const MonsterFoundPatterns := {"на пути у вас встретился", "ты наткнулся на"}
  const MonsterNotFoundPatterns := {"вы ещё не нашли монстра"}
  const TownPattern := "ты дошел до локации"
  const DangeonPattern := "вперед на встречу с монстрами"
  const ChooseDangeonPattern := "какой данж запустим"
  const ApproveDangeonPattern := "что хочешь попробовать пройти данж"
  const DangeonFinishedPattern := "вы успешно прошли"
  const InitPattern := "кнопочки"
  const CapchaPattern := "прежде чем выполнять какие-то действия в игре"

  /** The message text as every predicate sees it. */
  function Normalised(m: Message): string {
    StripMessage(m.text)
  }

  /** The flattened keyboard is not empty. */
  predicate HasButtons(m: Message) {
    GetButtonsFlat(m) != []
  }

  /** The `for pattern in patterns: if pattern in message: return True` search. */
  predicate AnyPattern(text: string, patterns: set<string>) {
    exists p | p in patterns :: Contains(text, p)
  }

  predicate IsWinState(m: Message) { Contains(Normalised(m), WinPattern) }
  predicate IsLoseState(m: Message) { AnyPattern(Normalised(m), LosePatterns) }
  predicate IsAlive(m: Message) { AnyPattern(Normalised(m), AlivePatterns) }
  predicate IsHpRecovered(m: Message) { Contains(Normalised(m), HpRecoveredPattern) }
  predicate IsEmptyEnergy(m: Message) { AnyPattern(Normalised(m), EmptyEnergyPatterns) }
  predicate IsEnergyRecovered(m: Message) { Contains(Normalised(m), EnergyRecoveredPattern) }
  predicate IsLocations(m: Message) { HasButtons(m) && Contains(Normalised(m), LocationsPattern) }
  predicate IsMonsterFound(m: Message) { AnyPattern(Normalised(m), MonsterFoundPatterns) }
  predicate IsMonsterNotFound(m: Message) { AnyPattern(Normalised(m), MonsterNotFoundPatterns) }
  predicate IsTown(m: Message) { HasButtons(m) && Contains(Normalised(m), TownPattern) }
  predicate IsDangeon(m: Message) { Contains(Normalised(m), DangeonPattern) }
  predicate IsChooseDangeon(m: Message) { Contains(Normalised(m), ChooseDangeonPattern) }
  predicate IsApproveDangeon(m: Message) { Contains(Normalised(m), ApproveDangeonPattern) }
  predicate IsDangeonFinished(m: Message) { Contains(Normalised(m), DangeonFinishedPattern) }
  predicate IsInit(m: Message) { HasButtons(m) && Contains(Normalised(m), InitPattern) }
  predicate IsCapchaFound(m: Message) { HasButtons(m) && Contains(Normalised(m), CapchaPattern) }

  /** The catalogue of game states, one per predicate above. */
  datatype State =
    | Initialisation | Locations | MonsterFound | MonsterNotFound | Win | Lose | Alive
    | HpRecovered | EmptyEnergy | EnergyRecovered | Town | Dangeon
    | DangeonChoice | DangeonApproval | DangeonFinished | Capcha

  const AllStates: set<State> := {
    Initialisation, Locations, MonsterFound, MonsterNotFound, Win, Lose, Alive,
    HpRecovered, EmptyEnergy, EnergyRecovered, Town, Dangeon,
    DangeonChoice, DangeonApproval, DangeonFinished, Capcha }

  lemma EveryStateListed()
    ensures forall s :: s in AllStates
  {
    forall s ensures s in AllStates {
      match s
      case Initialisation => case Locations => case MonsterFound => case MonsterNotFound =>
      case Win => case Lose => case Alive => case HpRecovered => case EmptyEnergy =>
      case EnergyRecovered => case Town => case Dangeon => case DangeonChoice =>
      case DangeonApproval => case DangeonFinished => case Capcha =>
    }
  }

  /** The predicate that recognises `s`. */
  predicate Holds(s: State, m: Message) {
    match s
    case Initialisation => IsInit(m)
    case Locations => IsLocations(m)
    case MonsterFound => IsMonsterFound(m)
    case MonsterNotFound => IsMonsterNotFound(m)
    case Win => IsWinState(m)
    case Lose => IsLoseState(m)
    case Alive => IsAlive(m)
    case HpRecovered => IsHpRecovered(m)
    case EmptyEnergy => IsEmptyEnergy(m)
    case EnergyRecovered => IsEnergyRecovered(m)
    case Town => IsTown(m)
    case Dangeon => IsDangeon(m)
    case DangeonChoice => IsChooseDangeon(m)
    case DangeonApproval => IsApproveDangeon(m)
    case DangeonFinished => IsDangeonFinished(m)
    case Capcha => IsCapchaFound(m)
  }

  /** The states whose predicate first checks for a keyboard. */
  predicate ButtonGated(s: State) {
    s.Initialisation? || s.Locations? || s.Town? || s.Capcha?
  }

  /** The message with `suffix` appended to its raw text. */
  function WithSuffix(m: Message, suffix: string): Message {
    m.(text := m.text + suffix)
  }

  /** Without a keyboard no button-gated state is recognised. */
  lemma NoButtonsNoGatedState(m: Message)
    requires !HasButtons(m)
    ensures !IsLocations(m) && !IsTown(m) && !IsInit(m) && !IsCapchaFound(m)
    ensures forall s :: ButtonGated(s) ==> !Holds(s, m)
  {
  }

  /** With a keyboard, each button-gated predicate is a single containment
      test on the normalised text. */
  lemma GatedWithButtons(m: Message)
    requires HasButtons(m)
    ensures IsLocations(m) <==> Contains(Normalised(m), LocationsPattern)
    ensures IsTown(m) <==> Contains(Normalised(m), TownPattern)
    ensures IsInit(m) <==> Contains(Normalised(m), InitPattern)
    ensures IsCapchaFound(m) <==> Contains(Normalised(m), CapchaPattern)
  {
  }

  /** The predicates that are not button-gated look only at the text. */
  lemma TextOnlyIgnoresButtons(m1: Message, m2: Message)
    requires m1.text == m2.text
    ensures forall s :: !ButtonGated(s) ==> (Holds(s, m1) <==> Holds(s, m2))
  {
  }

  lemma AnyPatternOfPair(t: string, a: string, b: string)
    ensures AnyPattern(t, {a, b}) <==> Contains(t, a) || Contains(t, b)
  {
    if Contains(t, a) {
      assert a in {a, b};
    } else if Contains(t, b) {
      assert b in {a, b};
    }
  }

  /** A multi-pattern predicate holds exactly when one of its patterns occurs;
      the order in which the pattern set is visited does not matter. */
  lemma MultiPatternPredicates(m: Message)
    ensures IsLoseState(m) <==> Contains(Normalised(m), "ты воскреснешь в") || Contains(Normalised(m), "к сожалению ты умер")
    ensures IsAlive(m) <==> Contains(Normalised(m), "ты снова жив") || Contains(Normalised(m), "ты снова в строю")
    ensures IsEmptyEnergy(m) <==> Contains(Normalised(m), "недостаточно энергии") || Contains(Normalised(m), "[у кого-то в группе меньше 2 единиц энергии]")
    ensures IsMonsterFound(m) <==> Contains(Normalised(m), "на пути у вас встретился") || Contains(Normalised(m), "ты наткнулся на")
    ensures IsMonsterNotFound(m) <==> Contains(Normalised(m), "вы ещё не нашли монстра")
  {
    var t := Normalised(m);
    AnyPatternOfPair(t, "ты воскреснешь в", "к сожалению ты умер");
    AnyPatternOfPair(t, "ты снова жив", "ты снова в строю");
    AnyPatternOfPair(t, "недостаточно энергии", "[у кого-то в группе меньше 2 единиц энергии]");
    AnyPatternOfPair(t, "на пути у вас встретился", "ты наткнулся на");
    AnyPatternOfPair(t, "вы ещё не нашли монстра", "вы ещё не нашли монстра");
    assert MonsterNotFoundPatterns == {"вы ещё не нашли монстра", "вы ещё не нашли монстра"};
  }

  /** Every predicate reads the text only through `strip_message`: two texts
      that differ only in letter case, or in newline against space, are
      classified alike. */
  lemma {:induction false} ClassifierRespectsNormalisation(m1: Message, m2: Message)
    requires m1.buttons == m2.buttons && |m1.text| == |m2.text|
    requires forall i :: 0 <= i < |m1.text| ==> NormChar(m1.text[i]) == NormChar(m2.text[i])
    ensures forall s :: Holds(s, m1) <==> Holds(s, m2)
  {
    StripMessageRespectsNormChar(m1.text, m2.text);
    assert Normalised(m1) == Normalised(m2);
    assert HasButtons(m1) == HasButtons(m2);
    forall s ensures Holds(s, m1) <==> Holds(s, m2) {
      SameViewSameState(m1, m2, s);
    }
  }

  /** `Holds` depends on the normalised text and on whether there is a
      keyboard, and on nothing else. */
  lemma SameViewSameState(m1: Message, m2: Message, s: State)
    requires Normalised(m1) == Normalised(m2) && HasButtons(m1) == HasButtons(m2)
    ensures Holds(s, m1) <==> Holds(s, m2)
  {
  }

  lemma {:induction false} ContainsSurvivesSuffix(m: Message, suffix: string, p: string)
    requires p != [] && Contains(Normalised(m), p)
    ensures Contains(Normalised(WithSuffix(m, suffix)), p)
  {
    ContainsNonEmpty(Normalised(m), p);
    StripMessageAppend(m.text, suffix);
    ContainsExtend(Normalised(m), Normalised(WithSuffix(m, suffix)), p);
  }

  lemma {:induction false} AnyPatternSurvivesSuffix(m: Message, suffix: string, patterns: set<string>)
    requires [] !in patterns && AnyPattern(Normalised(m), patterns)
    ensures AnyPattern(Normalised(WithSuffix(m, suffix)), patterns)
  {
    var p :| p in patterns && Contains(Normalised(m), p);
    ContainsSurvivesSuffix(m, suffix, p);
  }

  /** Containment is monotone: text appended after a message never takes a
      recognised state away. */
  lemma {:induction false} StatesSurviveSuffix(m: Message, suffix: string, s: State)
    requires Holds(s, m)
    ensures Holds(s, WithSuffix(m, suffix))
  {
    var m' := WithSuffix(m, suffix);
    assert GetButtonsFlat(m') == GetButtonsFlat(m);
    match s
    case Initialisation => ContainsSurvivesSuffix(m, suffix, InitPattern);
    case Locations => ContainsSurvivesSuffix(m, suffix, LocationsPattern);
    case MonsterFound => AnyPatternSurvivesSuffix(m, suffix, MonsterFoundPatterns);
    case MonsterNotFound => AnyPatternSurvivesSuffix(m, suffix, MonsterNotFoundPatterns);
    case Win => ContainsSurvivesSuffix(m, suffix, WinPattern);
    case Lose => AnyPatternSurvivesSuffix(m, suffix, LosePatterns);
    case Alive => AnyPatternSurvivesSuffix(m, suffix, AlivePatterns);
    case HpRecovered => ContainsSurvivesSuffix(m, suffix, HpRecoveredPattern);
    case EmptyEnergy => AnyPatternSurvivesSuffix(m, suffix, EmptyEnergyPatterns);
    case EnergyRecovered => ContainsSurvivesSuffix(m, suffix, EnergyRecoveredPattern);
    case Town => ContainsSurvivesSuffix(m, suffix, TownPattern);
    case Dangeon => ContainsSurvivesSuffix(m, suffix, DangeonPattern);
    case DangeonChoice => ContainsSurvivesSuffix(m, suffix, ChooseDangeonPattern);
    case DangeonApproval => ContainsSurvivesSuffix(m, suffix, ApproveDangeonPattern);
    case DangeonFinished => ContainsSurvivesSuffix(m, suffix, DangeonFinishedPattern);
    case Capcha => ContainsSurvivesSuffix(m, suffix, CapchaPattern);
  }
}
