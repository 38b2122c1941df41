/**
 * The activity log of the main window: log messages are shown in groups of
 * one level each. A group holds at most 50 messages, at most 35 groups are
 * kept and the oldest are dropped first; DEBUG messages and every message
 * while logging is disabled are ignored. Widgets, styling and scrolling are
 * left out; a group is its level and its messages.
 */
module MiniConsole {
  import opened Wrappers
  import opened Strings

  const MaxLogsPerGroup: nat := 50
  const MaxGroups: nat := 35

  datatype LogLevel = Debug | Info | Success | Warning | Error

  /** `level.value` */
  function LevelName(level: LogLevel): string {
    match level
    case Debug => "DEBUG"
    case Info => "INFO"
    case Success => "SUCCESS"
    case Warning => "WARNING"
    case Error => "ERROR"
  }

  // ---------------------------------------------------------------------
  // The state as values
  // ---------------------------------------------------------------------

  datatype GroupView = GroupView(level: string, logs: seq<string>)

  datatype ConsoleState = ConsoleState(groups: seq<GroupView>, lastLevel: Option<string>, enabled: bool)

  /** `LogGroup.is_full` */
  predicate Full(g: GroupView) {
    |g.logs| >= MaxLogsPerGroup
  }

  /** `LogGroup.add_log`: a full group refuses the message. */
  function GroupAdd(g: GroupView, message: string): GroupView {
    if Full(g) then g else g.(logs := g.logs + [message])
  }

  /** `need_new_group` of `MiniConsole.add_log` */
  predicate NeedNewGroup(st: ConsoleState, name: string) {
    st.groups == [] || st.lastLevel != Some(name) || Full(st.groups[|st.groups| - 1])
  }

  /** What the eviction loop leaves: with 35 or more groups, only the newest 34. */
  function Evicted(gs: seq<GroupView>): (r: seq<GroupView>)
    ensures |r| == if |gs| < MaxGroups then |gs| else MaxGroups - 1
    ensures r == gs[|gs| - |r|..]
  {
    if |gs| < MaxGroups then gs else gs[|gs| - (MaxGroups - 1)..]
  }

  /** The groups once a new group is opened where one is needed, after the eviction. */
  function Opened(st: ConsoleState, name: string): (gs: seq<GroupView>)
    ensures |gs| > 0
  {
    if NeedNewGroup(st, name) then Evicted(st.groups) + [GroupView(name, [])] else st.groups
  }

  /** `self.groups[-1].add_log(message)` */
  function AddToLast(gs: seq<GroupView>, message: string): (r: seq<GroupView>)
    requires |gs| > 0
    ensures |r| == |gs| && r[..|gs| - 1] == gs[..|gs| - 1] && r[|gs| - 1] == GroupAdd(gs[|gs| - 1], message)
  {
    gs[..|gs| - 1] + [GroupAdd(gs[|gs| - 1], message)]
  }

  /** `MiniConsole.add_log` */
  function AddLogSpec(st: ConsoleState, level: LogLevel, message: string): ConsoleState {
    if !st.enabled || level == Debug then st else AcceptSpec(st, LevelName(level), message)
  }

  /** `add_log` past its filter, for a message of level `name`. */
  function AcceptSpec(st: ConsoleState, name: string, message: string): ConsoleState {
    ConsoleState(AddToLast(Opened(st, name), message),
                 if NeedNewGroup(st, name) then Some(name) else st.lastLevel, st.enabled)
  }

  /** `MiniConsole.clear` */
  function ClearSpec(st: ConsoleState): ConsoleState {
    ConsoleState([], None, st.enabled)
  }

  /** `MiniConsole.set_main_logging_enabled` */
  function SetEnabledSpec(st: ConsoleState, enabled: bool): ConsoleState {
    if enabled == st.enabled then st
    else if enabled then st.(enabled := true)
    else ClearSpec(st).(enabled := false)
  }

  /**
   * What the console keeps true: at most 35 groups, each holding between 1
   * and 50 messages, and `last_level` is the level of the last group, or
   * `None` when there is none.
   */
  predicate Inv(st: ConsoleState) {
    && |st.groups| <= MaxGroups
    && Bounded(st.groups)
    && st.lastLevel == if st.groups == [] then None else Some(st.groups[|st.groups| - 1].level)
  }

  /** Every group holds between 1 and 50 messages. */
  predicate Bounded(gs: seq<GroupView>) {
    forall i :: 0 <= i < |gs| ==> 1 <= |gs[i].logs| <= MaxLogsPerGroup
  }

  /** All messages shown, oldest first. */
  function Flatten(gs: seq<GroupView>): seq<string> {
    if |gs| == 0 then [] else Flatten(gs[..|gs| - 1]) + gs[|gs| - 1].logs
  }

  // ---------------------------------------------------------------------
  // The widgets
  // ---------------------------------------------------------------------

  /** A group of messages of one level. */
  class LogGroup {
    const level: string
    var logs: seq<string>

    constructor(level: string)
      ensures this.level == level && logs == []
    {
      this.level := level;
      logs := [];
    }

    function View(): GroupView
      reads this
    {
      GroupView(level, logs)
    }

    /** `is_full` */
    predicate IsFull()
      reads this
      ensures IsFull() <==> Full(View())
    {
      |logs| >= MaxLogsPerGroup
    }

    /** `add_log`: `added` is false, and nothing changes, when the group is full. */
    method AddLog(message: string) returns (added: bool)
      modifies this
      ensures added <==> !Full(old(View()))
      ensures View() == GroupAdd(old(View()), message)
    {
      if |logs| >= MaxLogsPerGroup {
        return false;
      }
      logs := logs + [message];
      return true;
    }
  }

  /** The views of a sequence of groups. */
  function Views(gs: seq<LogGroup>): (r: seq<GroupView>)
    reads gs
    ensures |r| == |gs| && forall i :: 0 <= i < |gs| ==> r[i] == gs[i].View()
  {
    if |gs| == 0 then [] else Views(gs[..|gs| - 1]) + [gs[|gs| - 1].View()]
  }

  lemma ViewsDrop(gs: seq<LogGroup>)
    requires |gs| > 0
    ensures Views(gs[1..]) == Views(gs)[1..]
  {
  }

  lemma EvictedViews(gs: seq<LogGroup>, kept: seq<LogGroup>)
    requires |kept| == (if |gs| < MaxGroups then |gs| else MaxGroups - 1) && kept == gs[|gs| - |kept|..]
    ensures Views(kept) == Evicted(Views(gs))
    ensures Distinct(gs) ==> Distinct(kept)
  {
    assert Views(gs[|gs| - |kept|..]) == Views(gs)[|gs| - |kept|..];
  }

  /** No group is listed twice, so updating one leaves the others alone. */
  predicate Distinct(gs: seq<LogGroup>) {
    forall i, j :: 0 <= i < j < |gs| ==> gs[i] != gs[j]
  }

  /**
   * The loop `while len(groups) >= 35: groups.pop(0)`: the groups left
   * are the newest ones, fewer than 35, and all of them when there were
   * fewer than 35.
   */
  method KeepNewest<T>(gs: seq<T>) returns (kept: seq<T>)
    ensures |kept| == if |gs| < MaxGroups then |gs| else MaxGroups - 1
    ensures kept == gs[|gs| - |kept|..]
  {
    kept := gs;
    while |kept| >= MaxGroups
      invariant |kept| <= |gs| && kept == gs[|gs| - |kept|..]
      invariant kept == gs || |kept| >= MaxGroups - 1
    {
      kept := kept[1..];
    }
  }

  /** The views of groups whose fields read as before. */
  lemma ViewsFramed(gs: seq<LogGroup>, w: seq<GroupView>)
    requires |w| == |gs| && forall i :: 0 <= i < |gs| ==> w[i] == gs[i].View()
    ensures Views(gs) == w
  {
  }

  class Console {
    var groups: seq<LogGroup>
    var lastLevel: Option<string>
    var mainLoggingEnabled: bool

    predicate Valid()
      reads this
    {
      Distinct(groups)
    }

    function State(): ConsoleState
      reads this, groups
    {
      ConsoleState(Views(groups), lastLevel, mainLoggingEnabled)
    }

    constructor()
      ensures Valid() && State() == ConsoleState([], None, true)
    {
      groups := [];
      lastLevel := None;
      mainLoggingEnabled := true;
    }

    /** `add_log` */
    method AddLog(level: LogLevel, message: string)
      requires Valid()
      modifies this, groups
      ensures Valid() && State() == AddLogSpec(old(State()), level, message)
    {
      if !mainLoggingEnabled || level == Debug {
        return;
      }
      Accept(LevelName(level), message);
    }

    /** The part of `add_log` after the filter: open a group where one is needed, then add to the last group. */
    method Accept(name: string, message: string)
      requires Valid()
      modifies this, groups
      ensures Valid() && Views(groups) == AddToLast(Opened(old(State()), name), message)
      ensures lastLevel == if NeedNewGroup(old(State()), name) then Some(name) else old(lastLevel)
      ensures mainLoggingEnabled == old(mainLoggingEnabled)
    {
      ghost var st := State();
      var needNew := groups == [] || lastLevel != Some(name) || groups[|groups| - 1].IsFull();
      assert needNew == NeedNewGroup(st, name);
      if needNew {
        EvictOldest();
        OpenGroup(name);
      }
      assert Views(groups) == Opened(st, name);
      AddToLastGroup(message);
    }

    /** A new group of level `name` goes last and becomes the current level. */
    method OpenGroup(name: string)
      requires Valid()
      modifies this
      ensures Valid() && Views(groups) == old(Views(groups)) + [GroupView(name, [])]
      ensures lastLevel == Some(name) && mainLoggingEnabled == old(mainLoggingEnabled)
      ensures groups == old(groups) + [groups[|groups| - 1]] && fresh(groups[|groups| - 1])
    {
      ghost var w := Views(groups) + [GroupView(name, [])];
      var g := new LogGroup(name);
      groups := groups + [g];
      lastLevel := Some(name);
      ViewsFramed(groups, w);
    }

    /** The eviction loop of `add_log`. */
    method EvictOldest()
      requires Valid()
      modifies this
      ensures Valid() && |groups| <= |old(groups)| && groups == old(groups)[|old(groups)| - |groups|..]
      ensures Views(groups) == Evicted(old(Views(groups)))
      ensures lastLevel == old(lastLevel) && mainLoggingEnabled == old(mainLoggingEnabled)
    {
      var kept := KeepNewest(groups);
      EvictedViews(groups, kept);
      ghost var w := Views(kept);
      groups := kept;
      ViewsFramed(kept, w);
    }

    /** `self.groups[-1].add_log(message)` */
    method AddToLastGroup(message: string)
      requires Valid() && |groups| > 0
      modifies groups[|groups| - 1]
      ensures Valid() && Views(groups) == AddToLast(old(Views(groups)), message)
      ensures groups == old(groups) && lastLevel == old(lastLevel) && mainLoggingEnabled == old(mainLoggingEnabled)
    {
      var last := groups[|groups| - 1];
      var _ := last.AddLog(message);
      assert forall i :: 0 <= i < |groups| - 1 ==> groups[i].View() == old(groups[i].View());
    }

    /** `clear` */
    method Clear()
      modifies this
      ensures Valid() && State() == ClearSpec(old(State()))
    {
      groups := [];
      lastLevel := None;
    }

    /** `set_main_logging_enabled` */
    method SetMainLoggingEnabled(enabled: bool)
      modifies this
      ensures old(Valid()) ==> Valid()
      ensures State() == SetEnabledSpec(old(State()), enabled)
    {
      if enabled == mainLoggingEnabled {
        return;
      }
      mainLoggingEnabled := enabled;
      if !enabled {
        Clear();
      }
    }
  }

  // ---------------------------------------------------------------------
  // Properties
  // ---------------------------------------------------------------------

  /** The cap of a group: it never exceeds 50 messages, and a full one refuses. */
  lemma GroupAddCapped(g: GroupView, message: string)
    requires |g.logs| <= MaxLogsPerGroup
    ensures |GroupAdd(g, message).logs| <= MaxLogsPerGroup
    ensures Full(g) <==> GroupAdd(g, message) == g
    ensures !Full(g) ==> GroupAdd(g, message).logs == g.logs + [message]
  {
  }

  /** While disabled, and for DEBUG, adding a message changes nothing. */
  lemma IgnoredLogs(st: ConsoleState, level: LogLevel, message: string)
    requires !st.enabled || level == Debug
    ensures AddLogSpec(st, level, message) == st
  {
  }

  /** The groups after an accepted message, in closed form. */
  lemma AcceptGroups(st: ConsoleState, name: string, message: string)
    ensures var r := AcceptSpec(st, name, message);
            && (NeedNewGroup(st, name) ==> r.groups == Evicted(st.groups) + [GroupView(name, [message])] && r.lastLevel == Some(name))
            && (!NeedNewGroup(st, name) ==>
                  r.groups == st.groups[..|st.groups| - 1] + [GroupAdd(st.groups[|st.groups| - 1], message)]
                  && r.lastLevel == st.lastLevel)
  {
    if NeedNewGroup(st, name) {
      var o := Evicted(st.groups) + [GroupView(name, [])];
      assert o[..|o| - 1] == Evicted(st.groups);
      assert GroupAdd(o[|o| - 1], message) == GroupView(name, [message]);
    }
  }

  lemma BoundedSlice(gs: seq<GroupView>, i: nat, j: nat)
    requires Bounded(gs) && i <= j <= |gs|
    ensures Bounded(gs[i..j])
  {
    assert forall k :: 0 <= k < j - i ==> gs[i..j][k] == gs[i + k];
  }

  lemma BoundedSnoc(gs: seq<GroupView>, g: GroupView)
    requires Bounded(gs) && 1 <= |g.logs| <= MaxLogsPerGroup
    ensures Bounded(gs + [g])
  {
    assert forall k :: 0 <= k < |gs| ==> (gs + [g])[k] == gs[k];
  }

  /** Adding a message keeps the bounds and makes `last_level` the level of the last group. */
  lemma AddLogKeepsInv(st: ConsoleState, level: LogLevel, message: string)
    requires Inv(st)
    ensures Inv(AddLogSpec(st, level, message))
  {
    if st.enabled && level != Debug {
      AcceptKeepsInv(st, LevelName(level), message);
    }
  }

  lemma AcceptKeepsInv(st: ConsoleState, name: string, message: string)
    requires Inv(st)
    ensures Inv(AcceptSpec(st, name, message))
  {
    AcceptGroups(st, name, message);
    var n := |st.groups|;
    if NeedNewGroup(st, name) {
      BoundedSlice(st.groups, n - |Evicted(st.groups)|, n);
      BoundedSnoc(Evicted(st.groups), GroupView(name, [message]));
    } else {
      BoundedSlice(st.groups, 0, n - 1);
      assert st.groups[..n - 1] == st.groups[0..n - 1];
      assert 1 <= |st.groups[n - 1].logs|;
      BoundedSnoc(st.groups[..n - 1], GroupAdd(st.groups[n - 1], message));
    }
  }

  /**
   * An accepted message lands at the end of the last group, whose level is
   * the message's; a new group is opened exactly when there is none, the
   * level changed or the last group is full.
   */
  lemma AddLogPlacement(st: ConsoleState, level: LogLevel, message: string)
    requires Inv(st) && st.enabled && level != Debug
    ensures var r := AddLogSpec(st, level, message);
            var name := LevelName(level);
            && r.groups != []
            && r.groups[|r.groups| - 1].level == name
            && r.groups[|r.groups| - 1].logs[|r.groups[|r.groups| - 1].logs| - 1] == message
            && r.lastLevel == Some(name)
            && (NeedNewGroup(st, name) ==> r.groups[|r.groups| - 1] == GroupView(name, [message]))
            && (!NeedNewGroup(st, name) ==> |r.groups| == |st.groups| && r.groups[..|r.groups| - 1] == st.groups[..|st.groups| - 1])
  {
    AcceptPlacement(st, LevelName(level), message);
  }

  lemma AcceptPlacement(st: ConsoleState, name: string, message: string)
    requires Inv(st)
    ensures var r := AcceptSpec(st, name, message);
            && r.groups != []
            && r.groups[|r.groups| - 1].level == name
            && r.groups[|r.groups| - 1].logs[|r.groups[|r.groups| - 1].logs| - 1] == message
            && r.lastLevel == Some(name)
            && (NeedNewGroup(st, name) ==> r.groups[|r.groups| - 1] == GroupView(name, [message]))
            && (!NeedNewGroup(st, name) ==> |r.groups| == |st.groups| && r.groups[..|r.groups| - 1] == st.groups[..|st.groups| - 1])
  {
    var r := AcceptSpec(st, name, message);
    AcceptGroups(st, name, message);
    if NeedNewGroup(st, name) {
      assert r.groups[|r.groups| - 1] == GroupView(name, [message]);
    } else {
      var n := |st.groups| - 1;
      var last := GroupAdd(st.groups[n], message);
      assert last.logs == st.groups[n].logs + [message];
      assert r.groups[n] == last && |r.groups| == n + 1;
      assert r.groups[..n] == st.groups[..n];
    }
  }

  lemma {:induction false} FlattenAppend(gs: seq<GroupView>, hs: seq<GroupView>)
    ensures Flatten(gs + hs) == Flatten(gs) + Flatten(hs)
    decreases |hs|
  {
    if |hs| > 0 {
      var n := |hs| - 1;
      assert (gs + hs)[..|gs + hs| - 1] == gs + hs[..n];
      FlattenAppend(gs, hs[..n]);
    } else {
      assert gs + hs == gs;
    }
  }

  /**
   * Messages leave only from the front: after an add, the messages shown
   * are a suffix of those shown before followed by the new one, and when
   * no group had to be evicted nothing was lost.
   */
  lemma AddLogOrder(st: ConsoleState, level: LogLevel, message: string)
    requires st.enabled && level != Debug
    ensures var r := AddLogSpec(st, level, message);
            var all := Flatten(st.groups) + [message];
            && |Flatten(r.groups)| <= |all|
            && Flatten(r.groups) == all[|all| - |Flatten(r.groups)|..]
            && (|st.groups| < MaxGroups || !NeedNewGroup(st, LevelName(level)) ==> Flatten(r.groups) == all)
  {
    AcceptOrder(st, LevelName(level), message);
  }

  lemma AcceptOrder(st: ConsoleState, name: string, message: string)
    ensures var r := AcceptSpec(st, name, message);
            var all := Flatten(st.groups) + [message];
            && |Flatten(r.groups)| <= |all|
            && Flatten(r.groups) == all[|all| - |Flatten(r.groups)|..]
            && (|st.groups| < MaxGroups || !NeedNewGroup(st, name) ==> Flatten(r.groups) == all)
  {
    var r := AcceptSpec(st, name, message);
    AcceptGroups(st, name, message);
    if NeedNewGroup(st, name) {
      OrderNewGroup(st.groups, name, message);
      assert Flatten(r.groups) == Flatten(Evicted(st.groups) + [GroupView(name, [message])]);
    } else {
      OrderSameGroup(st.groups, message);
      assert Flatten(r.groups) == Flatten(st.groups) + [message];
    }
  }

  /** Opening a group after the eviction keeps the newest messages and appends the new one. */
  lemma OrderNewGroup(gs: seq<GroupView>, name: string, message: string)
    ensures var rs := Evicted(gs) + [GroupView(name, [message])];
            var all := Flatten(gs) + [message];
            && |Flatten(rs)| <= |all| && Flatten(rs) == all[|all| - |Flatten(rs)|..]
            && (|gs| < MaxGroups ==> Flatten(rs) == all)
  {
    var kept := Evicted(gs);
    var rs := kept + [GroupView(name, [message])];
    var pre := gs[..|gs| - |kept|];
    assert gs == pre + kept;
    FlattenAppend(pre, kept);
    FlattenSnoc(kept, GroupView(name, [message]));
    assert Flatten(gs) + [message] == Flatten(pre) + Flatten(rs);
    Suffix(Flatten(pre), Flatten(rs));
    if |gs| < MaxGroups {
      assert pre == [];
    }
  }

  /** Adding to a last group that is not full appends the message to all that is shown. */
  lemma OrderSameGroup(gs: seq<GroupView>, message: string)
    requires |gs| > 0 && !Full(gs[|gs| - 1])
    ensures Flatten(gs[..|gs| - 1] + [GroupAdd(gs[|gs| - 1], message)]) == Flatten(gs) + [message]
  {
    var n := |gs| - 1;
    var a := Flatten(gs[..n]);
    assert GroupAdd(gs[n], message).logs == gs[n].logs + [message];
    FlattenSnoc(gs[..n], GroupAdd(gs[n], message));
    assert Flatten(gs) == a + gs[n].logs;
    assert a + (gs[n].logs + [message]) == (a + gs[n].logs) + [message];
  }

  lemma FlattenSnoc(gs: seq<GroupView>, g: GroupView)
    ensures Flatten(gs + [g]) == Flatten(gs) + g.logs
  {
    assert (gs + [g])[..|gs|] == gs;
  }

  lemma Suffix<T>(a: seq<T>, b: seq<T>)
    ensures |b| <= |a + b| && (a + b)[|a + b| - |b|..] == b
  {
  }

  /** `clear` empties the groups and resets `last_level`; the result satisfies the invariant. */
  lemma ClearResets(st: ConsoleState)
    ensures ClearSpec(st).groups == [] && ClearSpec(st).lastLevel == None
    ensures ClearSpec(st).enabled == st.enabled && Inv(ClearSpec(st))
  {
  }

  /** Setting the current value changes nothing, disabling clears, enabling keeps the groups. */
  lemma SetEnabledEffect(st: ConsoleState, enabled: bool)
    ensures var r := SetEnabledSpec(st, enabled);
            && r.enabled == enabled
            && (enabled == st.enabled ==> r == st)
            && (!enabled && st.enabled ==> r.groups == [] && r.lastLevel == None)
            && (enabled ==> r.groups == st.groups && r.lastLevel == st.lastLevel)
  {
  }

  // ---------------------------------------------------------------------
  // `_lighten_color`
  // ---------------------------------------------------------------------

  /** The value of a hexadecimal digit, either case. */
  function HexValue(c: char): (r: Option<nat>)
    ensures r.Some? ==> r.value < 16
  {
    if '0' <= c <= '9' then Some(c as int - '0' as int)
    else if 'a' <= c <= 'f' then Some(c as int - 'a' as int + 10)
    else if 'A' <= c <= 'F' then Some(c as int - 'A' as int + 10)
    else None
  }

  predicate HexDigits(s: string) {
    forall i :: 0 <= i < |s| ==> HexValue(s[i]).Some?
  }

  function HexDigitsValue(s: string): nat
    requires HexDigits(s)
  {
    if |s| == 0 then 0 else HexDigitsValue(s[..|s| - 1]) * 16 + HexValue(s[|s| - 1]).value
  }

  /**
   * `int(s, 16)` for the short slices `_lighten_color` takes: surrounding
   * whitespace, an optional sign, then at least one hexadecimal digit.
   */
  function ParseHex(s: string): (r: Option<int>)
    ensures HexDigits(s) && s != "" ==> r == Some(HexDigitsValue(s))
  {
    var t := Strip(s);
    var neg := |t| > 0 && t[0] == '-';
    var digits := if |t| > 0 && (t[0] == '-' || t[0] == '+') then t[1..] else t;
    HexUnstripped(s);
    if digits == "" || !HexDigits(digits) then None
    else if neg then Some(0 - HexDigitsValue(digits) as int)
    else Some(HexDigitsValue(digits))
  }

  /** A run of hexadecimal digits has no surrounding whitespace and no sign. */
  lemma HexUnstripped(s: string)
    ensures HexDigits(s) && s != "" ==> Strip(s) == s && s[0] != '-' && s[0] != '+'
  {
    if HexDigits(s) && s != "" {
      assert HexValue(s[0]).Some? && HexValue(s[|s| - 1]).Some?;
      StripOfStripped(s);
    }
  }

  function HexChar(n: nat): char
    requires n < 16
  {
    if n < 10 then ('0' as int + n) as char else ('a' as int + n - 10) as char
  }

  /** `format(n, 'x')` for `n >= 0`: lowercase digits, no padding. */
  function ToHex(n: nat): (r: string)
    ensures |r| > 0
  {
    if n < 16 then [HexChar(n)] else ToHex(n / 16) + [HexChar(n % 16)]
  }

  /** `format(n, '02x')`: padded with zeros to two characters; a negative value keeps its sign. */
  function Format02x(n: int): string {
    if n < 0 then "-" + ToHex(-n)
    else if n < 16 then "0" + ToHex(n)
    else ToHex(n)
  }

  /** `s[i:j]` with Python's clamping of the bounds. */
  function Slice(s: string, i: nat, j: nat): string {
    var a := if i < |s| then i else |s|;
    var b := if j < |s| then j else |s|;
    if a <= b then s[a..b] else ""
  }

  /** `s.lstrip('#')` */
  function LStripHash(s: string): (r: string)
    ensures |r| <= |s| && r == s[|s| - |r|..] && (r == "" || r[0] != '#')
  {
    if |s| > 0 && s[0] == '#' then LStripHash(s[1..]) else s
  }

  function Min(a: int, b: int): int {
    if a < b then a else b
  }

  /** One channel of the result: `format(min(255, v + amount), '02x')`. */
  function Raised(v: int, amount: int): string {
    Format02x(Min(255, v + amount))
  }

  /** `_lighten_color`; `Failure` is the `ValueError` of a channel that is not a hexadecimal number. */
  function LightenColor(hexColor: string, amount: int): Result<string, string> {
    var h := LStripHash(hexColor);
    var r := ParseHex(Slice(h, 0, 2));
    var g := ParseHex(Slice(h, 2, 4));
    var b := ParseHex(Slice(h, 4, 6));
    if r.None? || g.None? || b.None? then Failure("ValueError")
    else
      Result.Success("#" + Raised(r.value, amount) + Raised(g.value, amount) + Raised(b.value, amount))
  }

  /** A byte renders as two lowercase hexadecimal digits, which read back as the byte. */
  lemma Format02xByte(n: int)
    requires 0 <= n < 256
    ensures Format02x(n) == [HexChar(n / 16), HexChar(n % 16)]
    ensures HexDigits(Format02x(n)) && HexDigitsValue(Format02x(n)) == n && NoUpper(Format02x(n))
  {
    var s := [HexChar(n / 16), HexChar(n % 16)];
    if n < 16 {
      assert HexChar(0) == '0';
    } else {
      assert ToHex(n / 16) == [HexChar(n / 16)];
    }
    assert HexValue(HexChar(n / 16)) == Some(n / 16);
    assert HexValue(HexChar(n % 16)) == Some(n % 16);
    assert s[..1] == [HexChar(n / 16)];
    assert s[..1][..0] == [];
    assert HexDigitsValue(s[..1]) == n / 16;
  }

  /** The channel `k` (0, 1 or 2) of a colour written `#rrggbb`. */
  function Channel(c: string, k: nat): (r: nat)
    requires |c| == 7 && HexDigits(c[1..]) && k < 3
    ensures r < 256
  {
    var d := c[1 + 2 * k..3 + 2 * k];
    assert HexDigits(d) by {
      forall i | 0 <= i < |d|
        ensures HexValue(d[i]).Some?
      {
        assert d[i] == c[1..][2 * k + i];
      }
    }
    TwoDigits(d);
    HexDigitsValue(d)
  }

  /** Two hexadecimal digits are worth less than 256. */
  lemma TwoDigits(d: string)
    requires |d| == 2 && HexDigits(d)
    ensures HexDigitsValue(d) == HexValue(d[0]).value * 16 + HexValue(d[1]).value < 256
  {
    var hi := d[..1];
    assert hi[..0] == [] && hi[0] == d[0];
    assert HexDigitsValue(hi) == HexValue(d[0]).value;
    assert HexDigitsValue(d) == HexDigitsValue(hi) * 16 + HexValue(d[1]).value;
  }

  /** The slice `_lighten_color` takes for channel `k` of `#rrggbb` parses to that channel. */
  lemma ChannelParsed(c: string, k: nat)
    requires |c| == 7 && HexDigits(c[1..]) && k < 3
    ensures ParseHex(Slice(c[1..], 2 * k, 2 * k + 2)) == Some(Channel(c, k))
  {
    var d := c[1 + 2 * k..3 + 2 * k];
    assert Slice(c[1..], 2 * k, 2 * k + 2) == d;
    assert HexDigits(d) by {
      forall i | 0 <= i < |d|
        ensures HexValue(d[i]).Some?
      {
        assert d[i] == c[1..][2 * k + i];
      }
    }
    assert Channel(c, k) == HexDigitsValue(d);
  }

  /** No character of `s` is an upper-case ASCII letter. */
  predicate NoUpper(s: string) {
    forall i :: 0 <= i < |s| ==> !('A' <= s[i] <= 'Z')
  }

  /** `"#" + p0 + p1 + p2` from three two-digit parts is a colour whose channels are the parts. */
  lemma Assemble(p0: string, p1: string, p2: string)
    requires |p0| == 2 && |p1| == 2 && |p2| == 2
    requires HexDigits(p0) && HexDigits(p1) && HexDigits(p2)
    requires NoUpper(p0) && NoUpper(p1) && NoUpper(p2)
    ensures var out := "#" + p0 + p1 + p2;
            && |out| == 7 && out[0] == '#' && HexDigits(out[1..]) && NoUpper(out[1..])
            && Channel(out, 0) == HexDigitsValue(p0) && Channel(out, 1) == HexDigitsValue(p1)
            && Channel(out, 2) == HexDigitsValue(p2)
  {
    var out := "#" + p0 + p1 + p2;
    assert out[1..] == p0 + p1 + p2;
    assert out[1..3] == p0 && out[3..5] == p1 && out[5..7] == p2;
  }

  /**
   * On a colour `#rrggbb` and a non-negative amount the result is again a
   * colour `#rrggbb` in lowercase, each channel raised by the amount and
   * capped at 255.
   */
  lemma LightenColorChannels(c: string, amount: int)
    requires |c| == 7 && c[0] == '#' && HexDigits(c[1..]) && amount >= 0
    ensures LightenColor(c, amount).Success?
    ensures var out := LightenColor(c, amount).value;
            && |out| == 7 && out[0] == '#' && HexDigits(out[1..]) && NoUpper(out[1..])
            && Channel(out, 0) == Min(255, Channel(c, 0) + amount)
            && Channel(out, 1) == Min(255, Channel(c, 1) + amount)
            && Channel(out, 2) == Min(255, Channel(c, 2) + amount)
  {
    var v0, v1, v2 := Min(255, Channel(c, 0) + amount), Min(255, Channel(c, 1) + amount), Min(255, Channel(c, 2) + amount);
    Format02xByte(v0);
    Format02xByte(v1);
    Format02xByte(v2);
    LightenColorOf(c, amount);
    Assemble(Raised(Channel(c, 0), amount), Raised(Channel(c, 1), amount), Raised(Channel(c, 2), amount));
  }

  /** `_lighten_color` on a colour `#rrggbb` parses its three channels. */
  lemma LightenColorOf(c: string, amount: int)
    requires |c| == 7 && c[0] == '#' && HexDigits(c[1..])
    ensures LightenColor(c, amount)
         == Result.Success("#" + Raised(Channel(c, 0), amount) + Raised(Channel(c, 1), amount) + Raised(Channel(c, 2), amount))
  {
    assert HexValue(c[1..][0]).Some?;
    assert LStripHash(c[1..]) == c[1..];
    ChannelParsed(c, 0);
    ChannelParsed(c, 1);
    ChannelParsed(c, 2);
  }
}
