/**
 * The input-line history: the last commands the user typed, at most fifty,
 * with a cursor that walks up to older commands and down to newer ones.
 *
 * The pure part states each operation on a state value; the class
 * CommandHistory keeps the same three fields the program updates in place
 * and its methods are proved to make exactly those steps.
 */
module Misc {

  /** How many commands the history keeps. */
  const MaxCommands: nat := 50

  /**
   * Which way the cursor last went. Middle means "just added" or "walked off
   * the newest end": the next move up returns the entry under the cursor
   * without moving it.
   */
  datatype Direction = Up | Middle | Down

  // ---------------------------------------------------------------------------
  // String.trim: what counts as a blank command.

  /** The characters String.trim removes: every code point up to and including U+0020. */
  predicate IsTrimmed(c: char) {
    c <= ' '
  }

  predicate IsBlank(s: string) {
    forall i :: 0 <= i < |s| ==> IsTrimmed(s[i])
  }

  /** The index of the first character of `s` at or after `i` that trim keeps, or |s|. */
  function TrimStart(s: string, i: nat): (a: nat)
    requires i <= |s|
    ensures i <= a <= |s|
    ensures forall k :: i <= k < a ==> IsTrimmed(s[k])
    ensures a < |s| ==> !IsTrimmed(s[a])
    decreases |s| - i
  {
    if i < |s| && IsTrimmed(s[i]) then TrimStart(s, i + 1) else i
  }

  /** The index just past the last character of `s[a..j]` that trim keeps, or `a`. */
  function TrimEnd(s: string, a: nat, j: nat): (b: nat)
    requires a <= j <= |s|
    ensures a <= b <= j
    ensures forall k :: b <= k < j ==> IsTrimmed(s[k])
    ensures b > a ==> !IsTrimmed(s[b - 1])
    decreases j
  {
    if j > a && IsTrimmed(s[j - 1]) then TrimEnd(s, a, j - 1) else j
  }

  /** String.trim: `s` without its leading and trailing trimmed characters. */
  function Trim(s: string): (r: string)
    ensures |r| <= |s|
    ensures |r| > 0 ==> !IsTrimmed(r[0]) && !IsTrimmed(r[|r| - 1])
  {
    var a := TrimStart(s, 0);
    s[a..TrimEnd(s, a, |s|)]
  }

  /**
   * What trim keeps is one slice of `s`, and everything outside that slice
   * is trimmed.
   */
  lemma TrimIsSlice(s: string)
    ensures var a := TrimStart(s, 0); var r := Trim(s);
      a + |r| <= |s| && r == s[a..a + |r|]
      && (forall i :: 0 <= i < a ==> IsTrimmed(s[i]))
      && (forall i :: a + |r| <= i < |s| ==> IsTrimmed(s[i]))
  {
  }

  /** A command trims to nothing exactly when it is blank. */
  lemma TrimEmptyIff(s: string)
    ensures |Trim(s)| == 0 <==> IsBlank(s)
  {
    var a := TrimStart(s, 0);
    var b := TrimEnd(s, a, |s|);
    if a < |s| {
      assert !IsTrimmed(s[a]);
      assert b > a;
    }
  }

  // ---------------------------------------------------------------------------
  // The operations on a state value.

  datatype State = State(history: seq<string>, cursor: int, direction: Direction)

  /** What a move returns together with the new state. */
  datatype Recall = Recall(state: State, entry: string)

  /** The invariant the three operations keep: bounded, and the cursor on an entry. */
  predicate Inv(s: State) {
    |s.history| <= MaxCommands && 0 <= s.cursor
    && (|s.history| > 0 ==> s.cursor < |s.history|)
    && (|s.history| == 0 ==> s.cursor == 0)
  }

  /** What a fresh history looks like. */
  function Initial(): (s: State)
    ensures Inv(s) && s.history == [] && s.direction == Middle
  {
    State([], 0, Middle)
  }

  /** Whether `add` stores `command`: it is not blank and not a repeat of the newest entry. */
  predicate Accepts(history: seq<string>, command: string) {
    !IsBlank(command) && !(|history| > 0 && command == history[|history| - 1])
  }

  /** Drops the oldest entry when the list has grown past the bound. */
  function Evict(history: seq<string>): seq<string> {
    if |history| > MaxCommands then history[1..] else history
  }

  /** The entries after `add(command)`. */
  function AddedHistory(history: seq<string>, command: string): seq<string> {
    if Accepts(history, command) then Evict(history + [command]) else history
  }

  /** The state after `add(command)`: the cursor on the newest entry, direction Middle. */
  function AfterAdd(s: State, command: string): State {
    var history := AddedHistory(s.history, command);
    State(history, if |history| > 0 then |history| - 1 else s.cursor, Middle)
  }

  /** `goUp`: after an add the cursor stays on the newest entry, otherwise it steps back, never below 0. */
  function AfterUp(s: State): Recall
    requires Inv(s)
  {
    if |s.history| == 0 then Recall(s, "")
    else
      var cursor := if s.direction != Middle && s.cursor > 0 then s.cursor - 1 else s.cursor;
      Recall(State(s.history, cursor, Up), s.history[cursor])
  }

  /** `goDown`: steps forward to a newer entry, or at the newest end returns "" and goes back to Middle. */
  function AfterDown(s: State): Recall
    requires Inv(s)
  {
    if |s.history| == 0 then Recall(s, "")
    else if s.cursor < |s.history| - 1 then
      Recall(State(s.history, s.cursor + 1, Down), s.history[s.cursor + 1])
    else
      Recall(State(s.history, s.cursor, Middle), "")
  }

  /** The program's own promise about the stored commands: none blank, no entry repeating its predecessor. */
  predicate WellFormed(history: seq<string>) {
    (forall i :: 0 <= i < |history| ==> !IsBlank(history[i]))
    && (forall i :: 0 < i < |history| ==> history[i] != history[i - 1])
  }

  // ---------------------------------------------------------------------------
  // Properties of add.

  /** Every operation keeps the invariant. */
  lemma AddKeepsInv(s: State, command: string)
    requires Inv(s)
    ensures Inv(AfterAdd(s, command))
  {
  }

  lemma UpKeepsInv(s: State)
    requires Inv(s)
    ensures Inv(AfterUp(s).state) && AfterUp(s).state.history == s.history
  {
  }

  lemma DownKeepsInv(s: State)
    requires Inv(s)
    ensures Inv(AfterDown(s).state) && AfterDown(s).state.history == s.history
  {
  }

  /** A blank command, or a repeat of the newest entry, leaves the entries as they were. */
  lemma AddIgnored(s: State, command: string)
    requires IsBlank(command) || (|s.history| > 0 && command == s.history[|s.history| - 1])
    ensures AfterAdd(s, command).history == s.history
  {
  }

  /**
   * Any other command becomes the newest entry; if that makes fifty-one, the
   * oldest goes and the rest keep their order.
   */
  lemma AddStores(s: State, command: string)
    requires Inv(s) && Accepts(s.history, command)
    ensures var h := AfterAdd(s, command).history;
      if |s.history| < MaxCommands then h == s.history + [command]
      else h == s.history[1..] + [command] && |h| == MaxCommands
  {
  }

  /** The entries change exactly when the command is accepted. */
  lemma AddChangesIff(s: State, command: string)
    requires Inv(s)
    ensures AfterAdd(s, command).history != s.history <==> Accepts(s.history, command)
  {
    if Accepts(s.history, command) {
      var h := AfterAdd(s, command).history;
      assert h[|h| - 1] == command;
    }
  }

  /** Ignored or not, an add puts the cursor on the newest entry with direction Middle. */
  lemma AddResetsCursor(s: State, command: string)
    ensures var r := AfterAdd(s, command);
      r.direction == Middle && (|r.history| > 0 ==> r.cursor == |r.history| - 1)
  {
  }

  /** Add keeps the stored commands well formed: no blank entry, no consecutive duplicate. */
  lemma AddKeepsWellFormed(history: seq<string>, command: string)
    requires WellFormed(history)
    ensures WellFormed(AddedHistory(history, command))
  {
    if Accepts(history, command) {
      var longer := history + [command];
      assert WellFormed(longer) by {
        assert forall i :: 0 <= i < |history| ==> longer[i] == history[i];
      }
      if |longer| > MaxCommands {
        var h := longer[1..];
        assert forall i :: 0 <= i < |h| ==> h[i] == longer[i + 1];
      }
    }
  }

  /** The commands kept after adding `commands` one by one to `history`. */
  function AddedAll(history: seq<string>, commands: seq<string>): seq<string>
    decreases |commands|
  {
    if |commands| == 0 then history
    else AddedAll(AddedHistory(history, commands[0]), commands[1..])
  }

  /** However many commands are added, the history never holds more than fifty. */
  lemma {:induction false} AddedAllBounded(history: seq<string>, commands: seq<string>)
    requires |history| <= MaxCommands
    ensures |AddedAll(history, commands)| <= MaxCommands
    decreases |commands|
  {
    if |commands| > 0 {
      AddedAllBounded(AddedHistory(history, commands[0]), commands[1..]);
    }
  }

  /** Starting from well-formed entries, any sequence of adds keeps them well formed. */
  lemma {:induction false} AddedAllWellFormed(history: seq<string>, commands: seq<string>)
    requires WellFormed(history)
    ensures WellFormed(AddedAll(history, commands))
    decreases |commands|
  {
    if |commands| > 0 {
      AddKeepsWellFormed(history, commands[0]);
      AddedAllWellFormed(AddedHistory(history, commands[0]), commands[1..]);
    }
  }

  /** The newest fifty of `commands`, or all of them when there are fewer. */
  function LastCommands(commands: seq<string>): (r: seq<string>)
    ensures |r| <= MaxCommands && |r| <= |commands|
    ensures r == commands[|commands| - |r|..]
    ensures |commands| >= MaxCommands ==> |r| == MaxCommands
    ensures |commands| <= MaxCommands ==> r == commands
  {
    if |commands| > MaxCommands then commands[|commands| - MaxCommands..] else commands
  }

  /** Keeping the newest fifty, then appending and keeping the newest fifty again, is one cut. */
  lemma LastCommandsOfLast(x: seq<string>, y: seq<string>)
    ensures LastCommands(LastCommands(x) + y) == LastCommands(x + y)
  {
    var l := LastCommands(x);
    var k := |x| - |l|;
    assert x + y == x[..k] + (l + y);
    var a := LastCommands(l + y);
    var b := LastCommands(x + y);
    assert |a| == |b|;
    forall i | 0 <= i < |a|
      ensures a[i] == b[i]
    {
      assert a[i] == (l + y)[|l + y| - |a| + i];
      assert b[i] == (x + y)[|x + y| - |b| + i];
    }
  }

  /** Any tail of a well-formed history is well formed. */
  lemma WellFormedTail(h: seq<string>, k: nat)
    requires WellFormed(h) && k <= |h|
    ensures WellFormed(h[k..])
  {
    var t := h[k..];
    assert forall i :: 0 <= i < |t| ==> t[i] == h[k + i];
  }

  /**
   * When every command is stored (none blank, none repeating its
   * predecessor), the history after the adds is exactly the newest fifty of
   * the old entries followed by the new commands, in order.
   */
  lemma {:induction false} AddedAllKeepsLast(history: seq<string>, commands: seq<string>)
    requires |history| <= MaxCommands && WellFormed(history + commands)
    ensures AddedAll(history, commands) == LastCommands(history + commands)
    decreases |commands|
  {
    if |commands| == 0 {
      assert history + commands == history;
    } else {
      var c := commands[0];
      var all := history + commands;
      assert all[|history|] == c;
      assert Accepts(history, c) by {
        if |history| > 0 {
          assert all[|history| - 1] == history[|history| - 1];
        }
      }
      var next := AddedHistory(history, c);
      assert next == LastCommands(history + [c]);
      var rest := commands[1..];
      assert all == (history + [c]) + rest;
      var k := |history + [c]| - |next|;
      assert next + rest == all[k..];
      WellFormedTail(all, k);
      AddedAllKeepsLast(next, rest);
      LastCommandsOfLast(history + [c], rest);
    }
  }

  /** Adding fifty-one storable commands to an empty history keeps the last fifty of them. */
  lemma FiftyOneCommandsKeepLastFifty(commands: seq<string>)
    requires |commands| == MaxCommands + 1 && WellFormed(commands)
    ensures AddedAll([], commands) == commands[1..]
  {
    assert [] + commands == commands;
    AddedAllKeepsLast([], commands);
  }

  // ---------------------------------------------------------------------------
  // Properties of the moves.

  /** On an empty history both moves return "" and change nothing. */
  lemma MovesOnEmpty(s: State)
    requires Inv(s) && |s.history| == 0
    ensures AfterUp(s) == Recall(s, "") && AfterDown(s) == Recall(s, "")
  {
  }

  /**
   * goUp on a non-empty history: direction Up, the cursor stays when the
   * direction was Middle and otherwise steps back unless already at 0, and
   * the entry at the new cursor is returned.
   */
  lemma UpMoves(s: State)
    requires Inv(s) && |s.history| > 0
    ensures var r := AfterUp(s);
      r.state.direction == Up && r.entry == s.history[r.state.cursor]
      && (s.direction == Middle ==> r.state.cursor == s.cursor)
      && (s.direction != Middle ==> r.state.cursor == if s.cursor > 0 then s.cursor - 1 else 0)
  {
  }

  /**
   * goDown on a non-empty history: below the newest entry it steps forward,
   * sets Down and returns that entry; on the newest entry it returns "",
   * sets Middle and keeps the cursor.
   */
  lemma DownMoves(s: State)
    requires Inv(s) && |s.history| > 0
    ensures var r := AfterDown(s);
      if s.cursor < |s.history| - 1 then
        r.state.cursor == s.cursor + 1 && r.state.direction == Down && r.entry == s.history[s.cursor + 1]
      else
        r.state.cursor == s.cursor && r.state.direction == Middle && r.entry == ""
  {
  }

  /** The first goUp after any add returns the newest entry. */
  lemma UpAfterAddReturnsNewest(s: State, command: string)
    requires Inv(s)
    ensures var t := AfterAdd(s, command);
      Inv(t) && |t.history| > 0 ==> AfterUp(t).entry == t.history[|t.history| - 1]
  {
  }

  /** The state after `k` goUps. */
  function UpTimes(s: State, k: nat): State
    requires Inv(s)
    decreases k
  {
    if k == 0 then s
    else
      UpKeepsInv(s);
      UpTimes(AfterUp(s).state, k - 1)
  }

  /**
   * Recall after an add: k goUps (k >= 1) leave the cursor k - 1 entries
   * back from the newest, stopping at the oldest, so the k-th goUp returns
   * that entry.
   */
  lemma {:induction false} UpTimesAfterAdd(s: State, k: nat)
    requires Inv(s) && |s.history| > 0 && s.cursor == |s.history| - 1 && s.direction == Middle && k > 0
    ensures var t := UpTimes(s, k);
      Inv(t) && t.history == s.history && t.direction == Up
      && t.cursor == if k - 1 < |s.history| then |s.history| - k else 0
    decreases k
  {
    if k > 1 {
      UpKeepsInv(s);
      var s1 := AfterUp(s).state;
      UpTimesFromUp(s1, k - 1);
    }
  }

  lemma {:induction false} UpTimesFromUp(s: State, k: nat)
    requires Inv(s) && |s.history| > 0 && s.direction == Up
    ensures var t := UpTimes(s, k);
      Inv(t) && t.history == s.history && t.direction == Up
      && t.cursor == if k <= s.cursor then s.cursor - k else 0
    decreases k
  {
    if k > 0 {
      UpKeepsInv(s);
      UpTimesFromUp(AfterUp(s).state, k - 1);
    }
  }

  /** After stepping up from below the top, a goDown returns the entry the cursor was on before. */
  lemma DownUndoesUp(s: State)
    requires Inv(s) && |s.history| > 0 && s.direction != Middle && s.cursor > 0
    ensures var up := AfterUp(s);
      Inv(up.state) && AfterDown(up.state).entry == s.history[s.cursor]
      && AfterDown(up.state).state.cursor == s.cursor
  {
  }

  /** After stepping down, a goUp returns the entry the cursor was on before. */
  lemma UpUndoesDown(s: State)
    requires Inv(s) && s.cursor < |s.history| - 1
    ensures var down := AfterDown(s);
      Inv(down.state) && AfterUp(down.state).entry == s.history[s.cursor]
      && AfterUp(down.state).state.cursor == s.cursor
  {
  }

  // ---------------------------------------------------------------------------
  // The object the input line holds.

  class CommandHistory {
    var history: seq<string>
    var cursor: int
    var direction: Direction

    function Snapshot(): State
      reads this
    {
      State(history, cursor, direction)
    }

    predicate Valid()
      reads this
    {
      Inv(Snapshot()) && WellFormed(history)
    }

    /** An empty history, direction Middle; the cursor starts at Java's default 0. */
    constructor ()
      ensures Valid() && Snapshot() == Initial()
    {
      history := [];
      cursor := 0;
      direction := Middle;
    }

    /** Stores `command` unless it is blank or repeats the newest entry, then resets the cursor. */
    method Add(command: string)
      requires Valid()
      modifies this
      ensures Valid()
      ensures Snapshot() == AfterAdd(old(Snapshot()), command)
    {
      var add := true;
      TrimEmptyIff(command);
      if |Trim(command)| == 0 {
        add := false;
      } else if |history| > 0 && command == history[|history| - 1] {
        add := false;
      }
      AddKeepsWellFormed(history, command);
      if add {
        history := history + [command];
        if |history| > MaxCommands {
          history := history[1..];
        }
      }
      if |history| > 0 {
        cursor := |history| - 1;
      }
      direction := Middle;
    }

    /** Moves to the previous command and returns it; "" on an empty history. */
    method GoUp() returns (up: string)
      requires Valid()
      modifies this
      ensures Valid()
      ensures Recall(Snapshot(), up) == AfterUp(old(Snapshot()))
    {
      up := "";
      if |history| > 0 {
        if direction != Middle && cursor > 0 {
          cursor := cursor - 1;
        }
        direction := Up;
        up := history[cursor];
      }
    }

    /** Moves to the next command and returns it; "" on an empty history or past the newest. */
    method GoDown() returns (down: string)
      requires Valid()
      modifies this
      ensures Valid()
      ensures Recall(Snapshot(), down) == AfterDown(old(Snapshot()))
    {
      down := "";
      if |history| > 0 {
        if cursor < |history| - 1 {
          cursor := cursor + 1;
          direction := Down;
          down := history[cursor];
        } else {
          direction := Middle;
        }
      }
    }
  }
}
