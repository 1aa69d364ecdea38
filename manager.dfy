/** The operator's self-management commands: messages in the operator's own
    chat that start with `!stop`, `!start`, `!exit` or `!help` are
    normalised, answered, and may pause or resume farming, request an exit
    or ping the game bot. */
module Manager {
  import opened Text
  import opened Effects

  const HelpCommand := "!help"
  const ExitCommand := "!exit"
  const StopCommand := "!stop"
  const StartCommand := "!start"
  const Commands := {HelpCommand, ExitCommand, StopCommand, StartCommand}

  const HelpReply := "!exit - force exit\n!stop - pause farming\n!start - resume farming"
  const ExitReply := "exit request sent"
  const StopReply := "farming was paused"
  const StartReply := "farming was resume"
  const UnknownReply := "unknown command!"
  const ExitReason := "Force exit"

  /** The registration filter `!(stop|start|exit|help)`, matched at the
      start of the text. */
  predicate PassesFilter(raw: string) {
    StopCommand <= raw || StartCommand <= raw || ExitCommand <= raw || HelpCommand <= raw
  }

  /** `strip_message(text).lower().strip()`: the second lower-casing and
      stripping change nothing, so the command is the normalised text. */
  function Command(raw: string): (cmd: string)
    ensures cmd == StripMessage(raw)
  {
    var s := StripMessage(raw);
    NormalisedIsFixedPoint(s);
    Strip(Lower(s))
  }

  /** The four commands `_handler` knows, and everything else. */
  datatype Kind = Help | Exit | Stop | Start | Unknown

  /** The `match command:` of `_handler`: exact comparison with the four
      commands, anything else unknown. */
  function KindOf(cmd: string): (k: Kind)
    ensures k == Unknown <==> cmd !in Commands
    ensures k == Stop <==> cmd == StopCommand
    ensures k == Start <==> cmd == StartCommand
    ensures k == Exit <==> cmd == ExitCommand
  {
    if cmd == HelpCommand then Help
    else if cmd == ExitCommand then Exit
    else if cmd == StopCommand then Stop
    else if cmd == StartCommand then Start
    else Unknown
  }

  /** The reply sent back to the operator: never empty, and `unknown
      command!` exactly for a text that is not one of the four commands. */
  function Reply(k: Kind): (r: string)
    ensures r != []
    ensures r == UnknownReply <==> k == Unknown
  {
    match k
    case Help => HelpReply
    case Exit => ExitReply
    case Stop => StopReply
    case Start => StartReply
    case Unknown => UnknownReply
  }

  /** Each kind has its own reply, so the operator can tell how the text
      was read. */
  lemma RepliesDistinct(k1: Kind, k2: Kind)
    requires Reply(k1) == Reply(k2)
    ensures k1 == k2
  {
  }

  /** The pause flag after a command: set by `!stop`, cleared by `!start`,
      kept by everything else. */
  function PausedAfter(k: Kind, paused: bool): (r: bool)
    ensures k == Stop ==> r
    ensures k == Start ==> !r
    ensures k != Stop && k != Start ==> r == paused
  {
    if k == Stop then true
    else if k == Start then false
    else paused
  }

  /** What a command does before its reply: the exit request for `!exit`,
      the ping for `!start`, nothing for the others. */
  function Prelude(k: Kind): (p: seq<Effect>)
    ensures |p| <= 1
    ensures Ping in p <==> k == Start
    ensures ExitRequest(ExitReason) in p <==> k == Exit
    ensures forall x :: x in p ==> x == Ping || x == ExitRequest(ExitReason)
  {
    if k == Exit then [ExitRequest(ExitReason)]
    else if k == Start then [Ping]
    else []
  }

  /** The effects of a command, in order: its prelude, then the message is
      marked read and the one reply goes to the operator. */
  function Reaction(k: Kind): (e: seq<Effect>)
    ensures |e| >= 2 && e[|e| - 2..] == [MarkRead, SendMe(Reply(k))]
    ensures e[..|e| - 2] == Prelude(k)
    ensures forall i :: 0 <= i < |e| - 1 ==> !e[i].SendMe?
  {
    var p := Prelude(k);
    var e := p + [MarkRead, SendMe(Reply(k))];
    assert e[..|p|] == p;
    e
  }

  /** Any text other than the four exact commands, including text the filter
      lets through such as `!stop now`, is answered `unknown command!` and
      changes no flag. */
  lemma UnknownCommandChangesNothing(raw: string, paused: bool)
    requires StripMessage(raw) !in Commands
    ensures PausedAfter(KindOf(Command(raw)), paused) == paused
    ensures Reaction(KindOf(Command(raw))) == [MarkRead, SendMe(UnknownReply)]
  {
  }

  /** Letter case does not matter to `Command`: it maps `!STOP` to `!stop`. */
  lemma {:induction false} UpperCaseCommand()
    ensures Command("!STOP") == StopCommand
  {
    var upper := "!STOP";
    assert NoOuterSpace(upper) && '\n' !in upper;
    NoNewlineUnchanged(upper);
    NoOuterSpaceUnchanged(upper);
    var l := Lower(upper);
    assert l[0] == '!' && l[1] == 's' && l[2] == 't' && l[3] == 'o' && l[4] == 'p';
    assert l == StopCommand;
  }

  /** Surrounding layout does not matter to `Command`: it maps ` !stop`
      followed by a newline to `!stop`. */
  lemma {:induction false} PaddedCommand()
    ensures Command(" !stop\n") == StopCommand
  {
    assert " !stop\n" == [' '] + StopCommand + ['\n'];
    assert IsLowerCase(StopCommand);
    PaddedLine(StopCommand);
    LowerOfLowerCase(StopCommand);
  }

  /** A line padded by a space in front and a newline behind normalises,
      before lower-casing, to its content. */
  lemma {:induction false} PaddedLine(core: string)
    requires core != [] && '\n' !in core && NoOuterSpace(core)
    ensures Strip(ReplaceNewlines([' '] + core + ['\n'])) == core
  {
    var padded := [' '] + core + ['\n'];
    var spaced := [' '] + core + [' '];
    assert ReplaceNewlines(padded) == spaced by {
      ReplaceNewlinesAppend([' '] + core, ['\n']);
      ReplaceNewlinesAppend([' '], core);
      assert ReplaceNewlines(core) == core;
      assert ReplaceNewlines(['\n']) == [' '];
      assert ReplaceNewlines([' ']) == [' '];
    }
    assert spaced[1..] == core + [' '];
    assert TrimLeft(core + [' ']) == core + [' '];
    assert (core + [' '])[..|core|] == core;
    assert TrimRight(core) == core;
  }

  /** `!stop now` passes the filter but is not a command. */
  lemma {:induction false} FilteredButUnknown()
    ensures PassesFilter("!stop now") && KindOf(Command("!stop now")) == Unknown
  {
    var longer := "!stop now";
    assert StopCommand <= longer;
    assert IsLowerCase(longer) && NoOuterSpace(longer) && '\n' !in longer;
    NormalisedUnchanged(longer);
    assert |Command(longer)| == 9;
  }

  /** The filter is matched against the raw text, letter case and layout
      included: whatever passes starts with `!` and four lower-case letters. */
  lemma FilterNeedsLowerCasePrefix(raw: string)
    requires PassesFilter(raw)
    ensures |raw| >= 5 && raw[0] == '!'
    ensures forall i :: 1 <= i < 5 ==> 'a' <= raw[i] <= 'z'
  {
  }

  /** So `!STOP` and ` !stop` followed by a newline never reach the handler,
      although `Command` would map both to `!stop`: the lower-casing and
      stripping inside the handler never turn a rejected text into a
      command. */
  lemma {:induction false} CaseAndPaddingFiltered()
    ensures !PassesFilter("!STOP") && !PassesFilter(" !stop\n")
    ensures Command("!STOP") == StopCommand && Command(" !stop\n") == StopCommand
  {
    UpperCaseCommand();
    PaddedCommand();
  }

  /** Trailing layout is still dropped: `!stop` followed by a newline passes
      the filter and is the stop command. */
  lemma {:induction false} TrailingNewlineCommand()
    ensures PassesFilter("!stop\n") && Command("!stop\n") == StopCommand
  {
    var trailing := "!stop\n";
    assert StopCommand <= trailing;
    assert ReplaceNewlines(trailing) == StopCommand + [' '] by {
      ReplaceNewlinesAppend(StopCommand, ['\n']);
      assert ReplaceNewlines(StopCommand) == StopCommand;
      assert ReplaceNewlines(['\n']) == [' '];
    }
    assert TrimLeft(StopCommand + [' ']) == StopCommand + [' '];
    assert (StopCommand + [' '])[..5] == StopCommand;
    assert TrimRight(StopCommand) == StopCommand;
    assert IsLowerCase(StopCommand);
    LowerOfLowerCase(StopCommand);
  }

  /** The shared pause flag the manager writes. */
  class ControlFlags {
    var paused: bool

    constructor (paused0: bool)
      ensures paused == paused0
    {
      paused := paused0;
    }

    /** `_handler`: normalise the command, answer it, write the flag, and
        issue the exit request or the ping; then mark the message read and
        send the reply. */
    method Handle(raw: string) returns (effects: seq<Effect>)
      modifies this
      ensures paused == PausedAfter(KindOf(Command(raw)), old(paused))
      ensures effects == Reaction(KindOf(Command(raw)))
    {
      var command := Strip(Lower(StripMessage(raw)));
      assert command == Command(raw);
      var response := UnknownReply;
      effects := [];
      match KindOf(command) {
        case Help =>
          response := HelpReply;
        case Exit =>
          effects := [ExitRequest(ExitReason)];
          response := ExitReply;
        case Stop =>
          response := StopReply;
          paused := true;
        case Start =>
          response := StartReply;
          paused := false;
          effects := [Ping];
        case Unknown =>
      }
      effects := effects + [MarkRead, SendMe(response)];
    }

    /** A message from the operator's own chat: the handler runs only when
        the text passes the filter. */
    method OnMessage(raw: string) returns (effects: seq<Effect>)
      modifies this
      ensures PassesFilter(raw) ==> paused == PausedAfter(KindOf(Command(raw)), old(paused)) && effects == Reaction(KindOf(Command(raw)))
      ensures !PassesFilter(raw) ==> paused == old(paused) && effects == []
    {
      effects := [];
      if PassesFilter(raw) {
        effects := Handle(raw);
      }
    }
  }
}
