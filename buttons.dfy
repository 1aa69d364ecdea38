/** Incoming game messages, their inline keyboards and the marker characters
    that identify the game's buttons. */
module Buttons {
  import opened Wrappers

  /** One keyboard button; only its label matters to the bot. */
  datatype Button = Button(text: string)

  /** An incoming message: its raw text and its keyboard as rows of buttons.
      `None` is a message without a keyboard. */
  datatype Message = Message(text: string, buttons: Option<seq<seq<Button>>>)

  const ToLocations := "☠"
  const ToDangeons := "♟"
  const Heal := "💖"
  const Yes := "✅"
  const ToFightZone := "🐣"
  const ToTown := "🏛"
  const Attack := "🔪"
  const FindMonster := "🐺"

  /** The eight markers, in declaration order. */
  const Markers := [ToLocations, ToDangeons, Heal, Yes, ToFightZone, ToTown, Attack, FindMonster]

  /** No two markers are the same string, so a label found by one marker is
      never mistaken for another marker's button because of equal markers. */
  lemma MarkersDistinct()
    ensures forall i, j :: 0 <= i < j < |Markers| ==> Markers[i] != Markers[j]
    ensures forall i :: 0 <= i < |Markers| ==> |Markers[i]| == 1
  {
  }

  /** Number of buttons in all rows together. */
  function TotalLength(rows: seq<seq<Button>>): nat {
    if rows == [] then 0 else |rows[0]| + TotalLength(rows[1..])
  }

  /** `itertools.chain(*rows)`: the rows one after another. */
  function Concat(rows: seq<seq<Button>>): (flat: seq<Button>)
    ensures |flat| == TotalLength(rows)
  {
    if rows == [] then [] else rows[0] + Concat(rows[1..])
  }

  /** `get_buttons_flat`: no keyboard or an empty keyboard gives no buttons;
      otherwise the rows concatenated in row-major order. */
  function GetButtonsFlat(m: Message): (flat: seq<Button>)
    ensures m.buttons.None? || m.buttons == Some([]) ==> flat == []
    ensures m.buttons.Some? ==> flat == Concat(m.buttons.value)
    ensures m.buttons.Some? ==> |flat| == TotalLength(m.buttons.value)
  {
    if m.buttons.None? || m.buttons.value == [] then [] else Concat(m.buttons.value)
  }

  /** The labels of a button list, in order. */
  function Texts(bs: seq<Button>): (labels: seq<string>)
    ensures |labels| == |bs|
    ensures forall i :: 0 <= i < |bs| ==> labels[i] == bs[i].text
  {
    seq(|bs|, i requires 0 <= i < |bs| => bs[i].text)
  }

  /** The labels of a message's flattened keyboard. */
  function FlatTexts(m: Message): seq<string> {
    Texts(GetButtonsFlat(m))
  }

  /** Button `c` of row `r` sits at flat position `TotalLength(rows[..r]) + c`. */
  lemma {:induction false} ConcatAt(rows: seq<seq<Button>>, r: nat, c: nat)
    requires r < |rows| && c < |rows[r]|
    ensures TotalLength(rows[..r]) + c < |Concat(rows)|
    ensures Concat(rows)[TotalLength(rows[..r]) + c] == rows[r][c]
  {
    if r == 0 {
      assert rows[..0] == [];
    } else {
      ConcatAt(rows[1..], r - 1, c);
      assert rows[1..][..r - 1] == rows[..r][1..];
      assert TotalLength(rows[..r]) == |rows[0]| + TotalLength(rows[1..][..r - 1]);
    }
  }

  /** Every flat position comes from a row and a column of the keyboard. */
  lemma {:induction false} ConcatFrom(rows: seq<seq<Button>>, k: nat) returns (r: nat, c: nat)
    requires k < |Concat(rows)|
    ensures r < |rows| && c < |rows[r]| && k == TotalLength(rows[..r]) + c
  {
    if k < |rows[0]| {
      assert rows[..0] == [];
      r, c := 0, k;
    } else {
      var r', c' := ConcatFrom(rows[1..], k - |rows[0]|);
      r, c := r' + 1, c';
      assert rows[1..][..r'] == rows[..r][1..];
      assert TotalLength(rows[..r]) == |rows[0]| + TotalLength(rows[1..][..r']);
    }
  }
}
