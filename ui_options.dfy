/** The step rules of the options dialogs (src/ui-options.c): the autosave
    frequency cycle, the panel-change and hitpoint-warning entries, the
    yes/no option menu and the window-flag editor. Screen drawing, prompts
    and key reading are not modelled; each dialog takes the keys it would
    read as a sequence. */
module UiOptions {
  import opened Gcu

  // ---------------------------------------------------------------------
  // toggle_frequency
  // ---------------------------------------------------------------------

  /** The autosave frequencies, in the order the toggle visits them. */
  const Frequencies: seq<int> := [0, 50, 100, 250, 500, 1000, 2500, 5000, 10000, 25000]

  /** toggle_frequency: the next listed frequency; the last one, and any
      value not listed, go back to 0 (off). */
  function ToggleFrequency(current: int): (r: int)
  {
    if current == 0 then 50
    else if current == 50 then 100
    else if current == 100 then 250
    else if current == 250 then 500
    else if current == 500 then 1000
    else if current == 1000 then 2500
    else if current == 2500 then 5000
    else if current == 5000 then 10000
    else if current == 10000 then 25000
    else 0
  }

  /** The toggle always lands on a listed frequency, and an unlisted value
      resets to 0 (off). */
  lemma ToggleOnList(current: int)
    ensures ToggleFrequency(current) in Frequencies
    ensures current !in Frequencies ==> ToggleFrequency(current) == 0
  {
  }

  /** n presses of the toggle. */
  function ToggleTimes(current: int, n: nat): int
  {
    if n == 0 then current else ToggleFrequency(ToggleTimes(current, n - 1))
  }

  /** Each listed frequency goes to the one after it, the last to the
      first. */
  lemma ToggleFollowsList(k: nat)
    requires k < |Frequencies|
    ensures ToggleFrequency(Frequencies[k]) == Frequencies[(k + 1) % |Frequencies|]
  {
    if k == 9 {
      assert (k + 1) % |Frequencies| == 0;
    }
  }

  lemma {:induction false} ToggleTimesWalks(k: nat, n: nat)
    requires k < |Frequencies|
    ensures ToggleTimes(Frequencies[k], n) == Frequencies[(k + n) % |Frequencies|]
  {
    if n > 0 {
      ToggleTimesWalks(k, n - 1);
      var j := (k + n - 1) % |Frequencies|;
      ToggleFollowsList(j);
      var q := (k + n - 1) / |Frequencies|;
      if j + 1 < |Frequencies| {
        ModUnique(k + n, |Frequencies|, q, j + 1);
        ModUnique(j + 1, |Frequencies|, 0, j + 1);
      } else {
        ModUnique(k + n, |Frequencies|, q + 1, 0);
        ModUnique(j + 1, |Frequencies|, 1, 0);
      }
    }
  }

  /** Ten presses bring every listed frequency back to itself, and after
      one press any value is on the cycle. */
  lemma ToggleCycle(current: int)
    ensures current in Frequencies ==> ToggleTimes(current, |Frequencies|) == current
    ensures ToggleTimes(current, 1) in Frequencies
  {
    if current in Frequencies {
      var k :| 0 <= k < |Frequencies| && Frequencies[k] == current;
      ToggleTimesWalks(k, |Frequencies|);
      ModUnique(k + |Frequencies|, |Frequencies|, 1, k);
    }
    assert ToggleTimes(current, 1) == ToggleFrequency(current);
    ToggleOnList(current);
  }

  // ---------------------------------------------------------------------
  // op_ptr: the options the dialogs edit
  // ---------------------------------------------------------------------

  /** ESCAPE. */
  const Escape: char := 27 as char

  /** One keypress of do_cmd_panel_change: a digit sets the value, `+` and
      `-` step it, and the result is clamped to 0..4. */
  function PanelStep(p: int, key: char): (r: int)
    ensures 0 <= r <= 4
    ensures IsDigit(key) ==> r == if key as int - '0' as int > 4 then 4 else key as int - '0' as int
    ensures key == '+' ==> r == if p + 1 > 4 then 4 else if p + 1 < 0 then 0 else p + 1
    ensures key == '-' ==> r == if p - 1 > 4 then 4 else if p - 1 < 0 then 0 else p - 1
    ensures !IsDigit(key) && key != '+' && key != '-' ==> r == if p > 4 then 4 else if p < 0 then 0 else p
  {
    var a := if IsDigit(key) then key as int - '0' as int else p;
    var b := if key == '+' then a + 1 else a;
    var c := if key == '-' then b - 1 else b;
    if c > 4 then 4 else if c < 0 then 0 else c
  }

  /** The keys do_cmd_panel_change acts on: those before the first ESCAPE. */
  function PanelRun(p: int, keys: seq<char>): int
    decreases |keys|
  {
    if |keys| == 0 || keys[0] == Escape then p else PanelRun(PanelStep(p, keys[0]), keys[1..])
  }

  /** After any keypress other than ESCAPE the panel change is in 0..4, and
      a value in 0..4 stays there whatever the keys. */
  lemma {:induction false} PanelRunInRange(p: int, keys: seq<char>)
    ensures |keys| > 0 && keys[0] != Escape ==> 0 <= PanelRun(p, keys) <= 4
    ensures 0 <= p <= 4 ==> 0 <= PanelRun(p, keys) <= 4
    decreases |keys|
  {
    if |keys| > 0 && keys[0] != Escape {
      PanelRunInRange(PanelStep(p, keys[0]), keys[1..]);
    }
  }

  /** strtoul(s, NULL, 0) on a string of digits: a leading 0 makes the
      number octal, read up to the first 8 or 9. */
  function StrToulBase0(s: seq<char>): nat
    requires forall k :: 0 <= k < |s| ==> IsDigit(s[k])
  {
    if |s| > 0 && s[0] == '0' then OctalPrefix(s, 0, 0) else DecimalValue(s)
  }

  function DecimalValue(s: seq<char>): nat
    requires forall k :: 0 <= k < |s| ==> IsDigit(s[k])
  {
    if |s| == 0 then 0 else 10 * DecimalValue(s[..|s| - 1]) + DigitValue(s[|s| - 1])
  }

  /** The value of the octal digits of s from position p on, given the
      value `acc` of those before. */
  function OctalPrefix(s: seq<char>, p: nat, acc: nat): nat
    requires forall k :: 0 <= k < |s| ==> IsDigit(s[k])
    decreases |s| - p
  {
    if p < |s| && s[p] < '8' then OctalPrefix(s, p + 1, 8 * acc + DigitValue(s[p])) else acc
  }

  /** The value do_cmd_hp_warn stores for an entry: strtoul's result cut to
      16 bits, and any value above 9 reset to 0. */
  function HpWarnValue(tmp: seq<char>): (w: int)
    requires forall k :: 0 <= k < |tmp| ==> IsDigit(tmp[k])
    ensures 0 <= w <= 9
    ensures StrToulBase0(tmp) <= 9 ==> w == StrToulBase0(tmp)
    ensures 9 < StrToulBase0(tmp) < 0x1_0000 ==> w == 0
  {
    var v := StrToulBase0(tmp) % 0x1_0000;
    if v > 9 then 0 else v
  }

  /** A single digit is stored as typed, a lone "0" included. */
  lemma HpWarnDigit(d: char)
    requires IsDigit(d)
    ensures HpWarnValue([d]) == d as int - '0' as int
  {
    assert DecimalValue([d]) == d as int - '0' as int by {
      assert [d][..0] == [];
    }
    if d == '0' {
      assert OctalPrefix([d], 1, 0) == 0;
    }
  }

  /** "10" is reset to 0. A leading zero makes the entry octal: "010"
      stores 8 and "09" stores 0. */
  lemma HpWarnEntries()
    ensures HpWarnValue("10") == 0 && HpWarnValue("010") == 8 && HpWarnValue("09") == 0
  {
    assert DecimalValue("10") == 10 by {
      assert "10"[..1] == "1";
      assert "1"[..0] == [];
    }
    assert OctalPrefix("010", 0, 0) == OctalPrefix("010", 1, 0) == OctalPrefix("010", 2, 1) == OctalPrefix("010", 3, 8) == 8;
    assert OctalPrefix("09", 0, 0) == OctalPrefix("09", 1, 0) == 0;
  }

  class PlayerOptions {
    /** op_ptr->hitpoint_warn and op_ptr->panel_change. */
    var hitpointWarn: int
    var panelChange: int
    /** op_ptr->opt: the yes/no options. */
    const opt: array<bool>

    constructor (count: nat)
      ensures opt.Length == count && fresh(opt)
      ensures hitpointWarn == 0 && panelChange == 0
    {
      opt := new bool[count](_ => false);
      hitpointWarn, panelChange := 0, 0;
    }

    /** do_cmd_hp_warn: when the entry is accepted, store its value. */
    method HpWarn(accepted: bool, tmp: seq<char>)
      requires |tmp| <= 3 && forall k :: 0 <= k < |tmp| ==> IsDigit(tmp[k])
      modifies this`hitpointWarn
      ensures hitpointWarn == if accepted then HpWarnValue(tmp) else old(hitpointWarn)
    {
      if accepted {
        var warn := StrToulBase0(tmp) % 0x1_0000;
        if warn > 9 {
          warn := 0;
        }
        hitpointWarn := warn;
      }
    }

    /** do_cmd_panel_change: read keys until ESCAPE, updating the panel
        change after each. */
    method PanelChange(keys: seq<char>)
      modifies this`panelChange
      ensures panelChange == PanelRun(old(panelChange), keys)
    {
      var k := 0;
      while k < |keys|
        invariant k <= |keys|
        invariant PanelRun(old(panelChange), keys) == PanelRun(panelChange, keys[k..])
      {
        var key := keys[k];
        if key == Escape {
          break;
        }
        assert keys[k..][1..] == keys[k + 1..];
        if IsDigit(key) {
          panelChange := key as int - '0' as int;
        }
        if key == '+' {
          panelChange := panelChange + 1;
        }
        if key == '-' {
          panelChange := panelChange - 1;
        }
        if panelChange > 4 {
          panelChange := 4;
        }
        if panelChange < 0 {
          panelChange := 0;
        }
        k := k + 1;
      }
    }
  }

  // ---------------------------------------------------------------------
  // option_toggle_handle
  // ---------------------------------------------------------------------

  /** What the option menu hands to its entries. */
  datatype MenuEvent = Select | Keyboard(key: char) | Other

  class OptionMenu {
    /** The menu's cursor and the number of entries shown. */
    var cursor: int
    const filterCount: int
    const options: PlayerOptions

    predicate Valid()
      reads this
    {
      0 <= cursor < filterCount
    }

    constructor (options: PlayerOptions, filterCount: int)
      requires filterCount >= 1
      ensures Valid() && this.options == options && this.filterCount == filterCount && cursor == 0
    {
      this.options, this.filterCount, cursor := options, filterCount, 0;
    }

    /** option_toggle_handle: selecting flips the option; `y` or `n` sets it
        and moves the cursor to the next entry, wrapping at the end; `?`
        shows help and changes nothing; any other event is not handled. */
    method OptionToggleHandle(ev: MenuEvent, oid: int) returns (handled: bool)
      requires Valid() && 0 <= oid < options.opt.Length
      modifies options.opt, this`cursor
      ensures Valid()
      ensures handled <==> ev.Select? || (ev.Keyboard? && ev.key in "yYnN?")
      ensures ev.Select? ==> options.opt[..] == old(options.opt[..])[oid := !old(options.opt[oid])]
      ensures ev.Keyboard? && ev.key in "yY" ==> options.opt[..] == old(options.opt[..])[oid := true]
      ensures ev.Keyboard? && ev.key in "nN" ==> options.opt[..] == old(options.opt[..])[oid := false]
      ensures !(ev.Select? || (ev.Keyboard? && ev.key in "yYnN")) ==> options.opt[..] == old(options.opt[..])
      ensures cursor == if ev.Keyboard? && ev.key in "yYnN" then (old(cursor) + 1) % filterCount else old(cursor)
    {
      var next := false;
      if ev.Select? {
        options.opt[oid] := !options.opt[oid];
      } else if ev.Keyboard? {
        if ev.key == 'y' || ev.key == 'Y' {
          options.opt[oid] := true;
          next := true;
        } else if ev.key == 'n' || ev.key == 'N' {
          options.opt[oid] := false;
          next := true;
        } else if ev.key == '?' {
        } else {
          return false;
        }
      } else {
        return false;
      }
      if next {
        WrapNext(cursor, filterCount);
        cursor := cursor + 1;
        cursor := (cursor + filterCount) % filterCount;
      }
      return true;
    }
  }

  /** Moving the cursor on by one and wrapping it as the menu does: the
      next entry, or the first after the last. */
  lemma WrapNext(c: int, n: int)
    requires 0 <= c < n
    ensures (c + 1 + n) % n == (c + 1) % n == if c + 1 == n then 0 else c + 1
  {
    if c + 1 == n {
      ModUnique(c + 1 + n, n, 2, 0);
      ModUnique(c + 1, n, 1, 0);
    } else {
      ModUnique(c + 1 + n, n, 1, c + 1);
      ModUnique(c + 1, n, 0, c + 1);
    }
  }

  // ---------------------------------------------------------------------
  // do_cmd_options_win
  // ---------------------------------------------------------------------

  /** ANGBAND_TERM_MAX: the number of windows, the main one included. */
  const TermMax := 8

  /** What the window-flag editor reacts to: ESCAPE or `q`; a mouse click
      at a screen position; `5`, `t`, Enter or Return, which toggle; a
      direction key, given by its step (ddx, ddy); any other key. */
  datatype WinEvent = Quit | Click(mx: int, my: int) | Toggle | Move(dx: int, dy: int) | Illegal

  /** A direction's step is -1, 0 or 1 in each axis. */
  predicate WellFormed(ev: WinEvent)
  {
    ev.Move? ==> -1 <= ev.dx <= 1 && -1 <= ev.dy <= 1
  }

  /** The editor's state: the new flags of every window and the cursor,
      window x and flag y. */
  datatype Editor = Editor(flags: seq<set<nat>>, x: int, y: int)

  predicate EditorValid(e: Editor, flagCount: int)
  {
    |e.flags| == TermMax && 0 <= e.x < TermMax && 0 <= e.y < flagCount
  }

  /** Flip flag y of a window: clear it when set, set it when clear. */
  function Flip(f: set<nat>, y: nat): (r: set<nat>)
    ensures forall b :: b in r <==> if b == y then b !in f else b in f
  {
    if y in f then f - {y} else f + {y}
  }

  /** The cursor move of a direction key as written: the row offset 16 is
      only a full turn when there are 16 flags. */
  function MoveAsWritten(e: Editor, dx: int, dy: int, flagCount: int): (r: Editor)
    requires EditorValid(e, flagCount) && -1 <= dx <= 1 && -1 <= dy <= 1
    ensures EditorValid(r, flagCount) && r.flags == e.flags
  {
    e.(x := (e.x + dx + 8) % TermMax, y := (e.y + dy + 16) % flagCount)
  }

  /** The cursor move with a full turn added to the row, as for the column:
      the cursor steps by (dx, dy) and wraps at the edges. */
  function MoveWrapped(e: Editor, dx: int, dy: int, flagCount: int): (r: Editor)
    requires EditorValid(e, flagCount) && -1 <= dx <= 1 && -1 <= dy <= 1
    ensures EditorValid(r, flagCount) && r.flags == e.flags
  {
    e.(x := (e.x + dx + 8) % TermMax, y := (e.y + dy + flagCount) % flagCount)
  }

  /** One event of the editor loop, with the row move chosen by `asWritten`.
      A click on a flag of a window other than the main one moves the
      cursor there; a toggle flips the flag under the cursor unless the
      cursor is on the main window. */
  function EditStep(e: Editor, ev: WinEvent, flagCount: int, asWritten: bool): (r: Editor)
    requires EditorValid(e, flagCount) && flagCount <= 32 && WellFormed(ev) && !ev.Quit?
    ensures EditorValid(r, flagCount)
  {
    match ev
    case Click(mx, my) =>
      var cy, cx := my - 5, CDiv(mx - 35, 5);
      if 0 <= cy < flagCount && 0 < cx < TermMax && mx % 5 == 0 then e.(x := cx, y := cy) else e
    case Toggle =>
      if e.x == 0 then e else e.(flags := e.flags[e.x := Flip(e.flags[e.x], e.y)])
    case Move(dx, dy) =>
      if asWritten then MoveAsWritten(e, dx, dy, flagCount) else MoveWrapped(e, dx, dy, flagCount)
    case Illegal => e
  }

  /** The editor loop over the events up to the first Quit. */
  function EditRun(e: Editor, evs: seq<WinEvent>, flagCount: int, asWritten: bool): (r: Editor)
    requires EditorValid(e, flagCount) && flagCount <= 32 && forall k :: 0 <= k < |evs| ==> WellFormed(evs[k])
    ensures EditorValid(r, flagCount)
    decreases |evs|
  {
    if |evs| == 0 || evs[0].Quit? then e else EditRun(EditStep(e, evs[0], flagCount, asWritten), evs[1..], flagCount, asWritten)
  }

  /** A toggle flips exactly bit y of window x when x is not the main
      window, and changes nothing on the main window. */
  lemma ToggleFlipsOneBit(e: Editor, flagCount: int, asWritten: bool, w: int, b: nat)
    requires EditorValid(e, flagCount) && flagCount <= 32 && 0 <= w < TermMax
    ensures var r := EditStep(e, Toggle, flagCount, asWritten);
            r.x == e.x && r.y == e.y
            && (b in r.flags[w] <==> if e.x != 0 && w == e.x && b == e.y then b !in e.flags[w] else b in e.flags[w])
  {
  }

  /** Whatever the events, the main window's flags are never edited and
      no flag at or above flagCount changes. */
  lemma {:induction false} EditRunKeepsMainWindow(e: Editor, evs: seq<WinEvent>, flagCount: int, asWritten: bool)
    requires EditorValid(e, flagCount) && flagCount <= 32 && forall k :: 0 <= k < |evs| ==> WellFormed(evs[k])
    ensures EditRun(e, evs, flagCount, asWritten).flags[0] == e.flags[0]
    ensures forall w, b: nat :: 0 <= w < TermMax && flagCount <= b ==>
              (b in EditRun(e, evs, flagCount, asWritten).flags[w] <==> b in e.flags[w])
    decreases |evs|
  {
    if |evs| > 0 && !evs[0].Quit? {
      var n := EditStep(e, evs[0], flagCount, asWritten);
      EditRunKeepsMainWindow(n, evs[1..], flagCount, asWritten);
      assert n.flags[0] == e.flags[0];
      forall w, b: nat | 0 <= w < TermMax && flagCount <= b
        ensures b in n.flags[w] <==> b in e.flags[w]
      {
        if evs[0].Toggle? && e.x != 0 && w == e.x {
          assert n.flags[w] == Flip(e.flags[w], e.y);
        }
      }
    }
  }

  /** With a full turn added, a move steps the cursor by (dx, dy) modulo
      the grid; as written, a sideways move from the top row also jumps 16
      rows whenever the number of flags is above 16. */
  lemma MoveWrapsOneStep(e: Editor, dx: int, dy: int, flagCount: int)
    requires EditorValid(e, flagCount) && -1 <= dx <= 1 && -1 <= dy <= 1
    ensures MoveWrapped(e, dx, dy, flagCount).y == (e.y + dy) % flagCount
    ensures MoveWrapped(e, dx, dy, flagCount).x == (e.x + dx) % TermMax
    ensures flagCount == 16 ==> MoveAsWritten(e, dx, dy, flagCount) == MoveWrapped(e, dx, dy, flagCount)
  {
    var a := e.y + dy;
    ModUnique(a + flagCount, flagCount, a / flagCount + 1, a % flagCount);
  }

  /** Whenever the flag count does not divide 16, a sideways move as
      written leaves row 0 for row 16 mod the count: row 16 with more than
      16 flags, row 6 with 10. The corrected move stays on row 0. */
  lemma MoveAsWrittenJumps(flags: seq<set<nat>>, flagCount: int)
    requires |flags| == TermMax && 1 <= flagCount <= 32 && 16 % flagCount != 0
    ensures var e := Editor(flags, 1, 0);
            MoveAsWritten(e, 1, 0, flagCount).y == 16 % flagCount != 0 && MoveWrapped(e, 1, 0, flagCount).y == 0
    ensures 16 < flagCount ==> MoveAsWritten(Editor(flags, 1, 0), 1, 0, flagCount).y == 16
    ensures flagCount == 10 ==> MoveAsWritten(Editor(flags, 1, 0), 1, 0, flagCount).y == 6
  {
    if 16 < flagCount {
      ModUnique(16, flagCount, 0, 16);
    }
    ModUnique(flagCount, flagCount, 1, 0);
  }

  /** The windows of the game: op_ptr->window_flag, and which windows
      exist. */
  class WindowOptions {
    const windowFlag: array<set<nat>>
    const alive: array<bool>
    /** PW_MAX_FLAGS: the number of window flags the editor lists. */
    const flagCount: int

    predicate Valid()
      reads this
    {
      windowFlag.Length == TermMax && alive.Length == TermMax && 1 <= flagCount <= 32
    }

    constructor (flagCount: int)
      requires 1 <= flagCount <= 32
      ensures Valid() && this.flagCount == flagCount && fresh(windowFlag) && fresh(alive)
    {
      this.flagCount := flagCount;
      windowFlag := new set<nat>[TermMax](_ => {});
      alive := new bool[TermMax](_ => true);
    }

    /** The interactive loop shared by both versions of the dialog: the
        flags are edited in `newFlags`, starting at the cursor (0, 0). */
    method EditLoop(newFlags: array<set<nat>>, events: seq<WinEvent>, asWritten: bool)
      requires Valid() && newFlags.Length == TermMax && forall k :: 0 <= k < |events| ==> WellFormed(events[k])
      modifies newFlags
      ensures newFlags[..] == EditRun(Editor(old(newFlags[..]), 0, 0), events, flagCount, asWritten).flags
    {
      var x, y := 0, 0;
      var k := 0;
      while k < |events|
        invariant k <= |events| && newFlags.Length == TermMax && 0 <= x < TermMax && 0 <= y < flagCount
        invariant EditRun(Editor(old(newFlags[..]), 0, 0), events, flagCount, asWritten)
               == EditRun(Editor(newFlags[..], x, y), events[k..], flagCount, asWritten)
      {
        var ev := events[k];
        assert events[k..][1..] == events[k + 1..];
        if ev.Quit? {
          break;
        }
        ghost var before := Editor(newFlags[..], x, y);
        match ev {
          case Click(mx, my) =>
            var choicey := my - 5;
            var choicex := CDiv(mx - 35, 5);
            if 0 <= choicey < flagCount && 0 < choicex < TermMax && mx % 5 == 0 {
              y := choicey;
              x := CDiv(mx - 35, 5);
            }
          case Toggle =>
            if x != 0 {
              if y in newFlags[x] {
                newFlags[x] := newFlags[x] - {y};
              } else {
                newFlags[x] := newFlags[x] + {y};
              }
            }
          case Move(dx, dy) =>
            x := (x + dx + 8) % TermMax;
            y := if asWritten then (y + dy + 16) % flagCount else (y + dy + flagCount) % flagCount;
          case Illegal =>
        }
        assert Editor(newFlags[..], x, y) == EditStep(before, ev, flagCount, asWritten);
        k := k + 1;
      }
    }

    /** do_cmd_options_win as written: the flags are copied to `newFlags`
        and `oldFlag`, edited in `newFlags`, and the notice pass compares
        window_flag with oldFlag; window_flag itself is never written, so
        every edit is lost and no window is refreshed. */
    method OptionsWinAsWritten(events: seq<WinEvent>) returns (refreshed: seq<int>)
      requires Valid() && forall k :: 0 <= k < |events| ==> WellFormed(events[k])
      ensures refreshed == []
    {
      var oldFlag := new set<nat>[TermMax](j requires 0 <= j < TermMax reads windowFlag => windowFlag[j]);
      var newFlags := new set<nat>[TermMax](j requires 0 <= j < TermMax reads windowFlag => windowFlag[j]);
      EditLoop(newFlags, events, true);
      refreshed := [];
      var j := 0;
      while j < TermMax
        invariant j <= TermMax && refreshed == []
        invariant forall i :: 0 <= i < TermMax ==> oldFlag[i] == windowFlag[i]
      {
        if alive[j] && windowFlag[j] != oldFlag[j] {
          refreshed := refreshed + [j];
        }
        j := j + 1;
      }
    }

    /** The windows whose flags differ between two flag tables, in order. */
    ghost function Changed(before: seq<set<nat>>, after: seq<set<nat>>, n: nat): seq<int>
      requires n <= |before| == |after| == TermMax
      reads alive
      requires alive.Length == TermMax
    {
      if n == 0 then []
      else Changed(before, after, n - 1) + (if alive[n - 1] && after[n - 1] != before[n - 1] then [n - 1] else [])
    }

    /** do_cmd_options_win with the edits written back: window_flag becomes
        the edited flags and each live window whose flags changed is
        refreshed. */
    method OptionsWin(events: seq<WinEvent>) returns (refreshed: seq<int>)
      requires Valid() && forall k :: 0 <= k < |events| ==> WellFormed(events[k])
      modifies windowFlag
      ensures windowFlag[..] == EditRun(Editor(old(windowFlag[..]), 0, 0), events, flagCount, false).flags
      ensures refreshed == Changed(old(windowFlag[..]), windowFlag[..], TermMax)
    {
      var oldFlag := new set<nat>[TermMax](j requires 0 <= j < TermMax reads windowFlag => windowFlag[j]);
      assert oldFlag[..] == windowFlag[..];
      EditLoop(windowFlag, events, false);
      refreshed := [];
      var j := 0;
      while j < TermMax
        invariant j <= TermMax
        invariant refreshed == Changed(oldFlag[..], windowFlag[..], j)
      {
        if alive[j] && windowFlag[j] != oldFlag[j] {
          refreshed := refreshed + [j];
        }
        j := j + 1;
      }
    }
  }

  /** With the edits written back, the main window's flags still never
      change. */
  lemma OptionsWinKeepsMainWindow(before: seq<set<nat>>, events: seq<WinEvent>, flagCount: int)
    requires |before| == TermMax && 1 <= flagCount <= 32 && forall k :: 0 <= k < |events| ==> WellFormed(events[k])
    ensures EditRun(Editor(before, 0, 0), events, flagCount, false).flags[0] == before[0]
  {
    EditRunKeepsMainWindow(Editor(before, 0, 0), events, flagCount, false);
  }
}
