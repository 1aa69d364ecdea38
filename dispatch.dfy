/** The ordered dispatch tables: a list of (state, handler) rules in which
    the first rule whose state is recognised selects the handler, and the
    skip handler is the fallback. Selection is stated on the set of states
    the classifier recognises in a message (`Recognised`). */
module Dispatch {
  import opened Buttons
  import opened States

  /** The handlers a table can select. */
  datatype Action =
    | Init | GoToFightZone | StartFighting | SearchNext | InTown
    | GoToLocations | PickDangeon | GoToDangeon | ChooseDangeon
    | StartDangeon | Relaxing | ResolveCapcha | SkipTurn

  datatype Rule = Rule(state: State, action: Action)

  /** The states recognised in `m`: exactly those whose predicate holds. */
  function Recognised(m: Message): (rs: set<State>)
    ensures forall s :: s in rs <==> Holds(s, m)
  {
    EveryStateListed();
    set s | s in AllStates && Holds(s, m)
  }

  /** No rule before position `n` has a state in `rs`. */
  predicate NoneBefore(table: seq<Rule>, rs: set<State>, n: int) {
    forall j :: 0 <= j < n && j < |table| ==> table[j].state !in rs
  }

  /** The position of the first rule whose state holds, or `|table|` when
      none holds. */
  function FirstMatch(table: seq<Rule>, rs: set<State>): (k: nat)
    ensures k <= |table|
    ensures NoneBefore(table, rs, k)
    ensures k < |table| ==> table[k].state in rs
  {
    if table == [] then 0
    else if table[0].state in rs then 0
    else 1 + FirstMatch(table[1..], rs)
  }

  /** `_select_action_by_event`: the handler of the first matching rule, or
      `SkipTurn` when no rule matches. */
  function Select(table: seq<Rule>, rs: set<State>): (a: Action)
    ensures NoneBefore(table, rs, |table|) ==> a == SkipTurn
    ensures forall k :: 0 <= k < |table| && table[k].state in rs && NoneBefore(table, rs, k) ==> a == table[k].action
  {
    var k := FirstMatch(table, rs);
    if k < |table| then table[k].action else SkipTurn
  }

  /** Whatever `Select` returns comes from the first matching rule, unless it
      is the fallback. */
  lemma SelectFromFirstMatch(table: seq<Rule>, rs: set<State>) returns (k: nat)
    requires Select(table, rs) != SkipTurn
    ensures k < |table| && table[k].state in rs && NoneBefore(table, rs, k)
    ensures Select(table, rs) == table[k].action
  {
    k := FirstMatch(table, rs);
  }

  /** The first match is the only position that has no match before it and
      a match on it (or is the end of the table). */
  lemma FirstMatchIs(table: seq<Rule>, rs: set<State>, k: nat)
    requires k <= |table| && NoneBefore(table, rs, k)
    requires k < |table| ==> table[k].state in rs
    ensures FirstMatch(table, rs) == k
  {
  }

  /** The selected handler is the one of the first match, or the fallback. */
  lemma SelectAtFirstMatch(table: seq<Rule>, rs: set<State>)
    ensures FirstMatch(table, rs) < |table| ==> Select(table, rs) == table[FirstMatch(table, rs)].action
    ensures FirstMatch(table, rs) == |table| ==> Select(table, rs) == SkipTurn
  {
  }

  /** A rule whose state is not recognised can be dropped without changing
      the selection. */
  lemma {:induction false} DropUnmatchedRule(table: seq<Rule>, rs: set<State>, i: nat)
    requires i < |table| && table[i].state !in rs
    ensures Select(table[..i] + table[i + 1..], rs) == Select(table, rs)
  {
    var u := table[..i] + table[i + 1..];
    var m := FirstMatch(table, rs);
    SelectAtFirstMatch(table, rs);
    SelectAtFirstMatch(u, rs);
    if m < i {
      forall j | 0 <= j <= m ensures u[j] == table[j] {}
      FirstMatchIs(u, rs, m);
    } else {
      forall j | 0 <= j < m - 1 ensures u[j].state !in rs {
        if j < i {
          assert u[j] == table[j];
        } else {
          assert u[j] == table[j + 1];
        }
      }
      if m < |table| {
        assert u[m - 1] == table[m];
      }
      FirstMatchIs(u, rs, m - 1);
    }
  }

  /** Once a prefix of the table selects a handler, the rules after it do
      not matter. */
  lemma {:induction false} SelectedByPrefix(table: seq<Rule>, rs: set<State>, n: nat)
    requires n <= |table| && Select(table[..n], rs) != SkipTurn
    ensures Select(table, rs) == Select(table[..n], rs)
  {
    var p := table[..n];
    var m := FirstMatch(p, rs);
    SelectAtFirstMatch(p, rs);
    SelectAtFirstMatch(table, rs);
    forall j | 0 <= j <= m && j < n ensures p[j] == table[j] {}
    FirstMatchIs(table, rs, m);
  }

  /** `pos` places the rules of `t`, in order, at positions of `f`. */
  predicate EmbeddedAt(t: seq<Rule>, f: seq<Rule>, pos: seq<nat>) {
    && |pos| == |t|
    && (forall k :: 0 <= k < |pos| ==> pos[k] < |f| && f[pos[k]] == t[k])
    && (forall a, b :: 0 <= a < b < |pos| ==> pos[a] < pos[b])
  }

  /** A table embedded in order in another one, whose other rules are all
      unrecognised, selects the same handler as that table. */
  lemma {:induction false} EmbeddedAgrees(t: seq<Rule>, f: seq<Rule>, pos: seq<nat>, rs: set<State>)
    requires EmbeddedAt(t, f, pos)
    requires forall i :: 0 <= i < |f| && i !in pos ==> f[i].state !in rs
    ensures Select(f, rs) == Select(t, rs)
  {
    var k := FirstMatch(t, rs);
    SelectAtFirstMatch(t, rs);
    SelectAtFirstMatch(f, rs);
    var j := if k < |t| then pos[k] else |f|;
    forall i | 0 <= i < j ensures f[i].state !in rs {
      if i in pos {
        var k' :| 0 <= k' < |pos| && pos[k'] == i;
        assert k' < k;
        assert f[i] == t[k'];
      }
    }
    FirstMatchIs(f, rs, j);
  }

  /** When no rule of the table mentions `SkipTurn`, the fallback is selected
      exactly when no state of the table is recognised. */
  lemma SkipExactlyWhenNoMatch(table: seq<Rule>, rs: set<State>)
    requires forall j :: 0 <= j < |table| ==> table[j].action != SkipTurn
    ensures Select(table, rs) == SkipTurn <==> NoneBefore(table, rs, |table|)
  {
    var k := FirstMatch(table, rs);
    if k < |table| {
      assert Select(table, rs) == table[k].action;
    }
  }
}
