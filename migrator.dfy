/**
 * The settings migrator: it rewrites a settings dict in place to the current
 * layout. Old formatting presets get their "- Name" variant, and the
 * `enable_console` flag moves from `system_settings` to `console_settings`.
 *
 * The settings are a JSON object; the nested dicts are values held in it, so
 * updating one is assigning the updated dict back under its key.
 */
module Migrator {
  import opened Wrappers
  import opened JsonValue

  /** The preset a stored `formatting_preset` becomes. */
  function NewPreset(preset: Json): (r: Json)
    ensures preset == JStr("Classic") ==> r == JStr("Classic - Name")
    ensures preset == JStr("XML-Like") ==> r == JStr("XML-Like - Name")
    ensures preset == JStr("Divided") ==> r == JStr("Divided - Name")
    ensures preset !in {JStr("Classic"), JStr("XML-Like"), JStr("Divided")} ==> r == preset
  {
    if preset == JStr("Classic") then JStr("Classic - Name")
    else if preset == JStr("XML-Like") then JStr("XML-Like - Name")
    else if preset == JStr("Divided") then JStr("Divided - Name")
    else preset
  }

  /**
   * The first migration. When `formatting` is present, `"formatting_preset"
   * in formatting` is evaluated: it raises on `None`, a boolean or a number,
   * and indexing a string or a list that contains the key raises too; both
   * are `None` here. Otherwise only a dict holding the key is rewritten.
   */
  function MigratePreset(settings: seq<Member>): (r: Option<seq<Member>>)
    ensures r.None? <==> (HasKey(settings, "formatting") &&
              var f := Get(settings, "formatting");
              PyIn("formatting_preset", f).None? || (!f.JObj? && PyIn("formatting_preset", f) == Some(true)))
  {
    if !HasKey(settings, "formatting") then Some(settings)
    else
      var f := Get(settings, "formatting");
      match PyIn("formatting_preset", f)
      case None => None
      case Some(present) =>
        if !present then Some(settings)
        else if !f.JObj? then None
        else
          var preset := Get(f.members, "formatting_preset");
          if preset in {JStr("Classic"), JStr("XML-Like"), JStr("Divided")} then
            Some(Put(settings, "formatting", JObj(Put(f.members, "formatting_preset", NewPreset(preset)))))
          else Some(settings)
  }

  /**
   * The second migration: a dict `system_settings` holding `enable_console`
   * loses it; `console_settings` is created empty when absent, and receives
   * the value only when it is a dict that does not hold the key yet.
   */
  function MoveConsoleFlag(settings: seq<Member>): seq<Member> {
    var system := Get(settings, "system_settings");
    if !(system.JObj? && HasKey(system.members, "enable_console")) then settings
    else
      var flag := Get(system.members, "enable_console");
      var s1 := Put(settings, "system_settings", JObj(Remove(system.members, "enable_console")));
      var s2 := if HasKey(s1, "console_settings") then s1 else Put(s1, "console_settings", JObj([]));
      var console := Get(s2, "console_settings");
      if console.JObj? && !HasKey(console.members, "enable_console") then
        Put(s2, "console_settings", JObj(Put(console.members, "enable_console", flag)))
      else s2
  }

  /** `SettingsMigrator.migrate`: the migrated settings, or `None` where it raises. */
  function Migrated(settings: seq<Member>): Option<seq<Member>> {
    match MigratePreset(settings)
    case None => None
    case Some(s) => Some(MoveConsoleFlag(s))
  }

  /** The settings dict the migrator updates in place. */
  class SettingsDict {
    var members: seq<Member>

    constructor(members: seq<Member>)
      ensures this.members == members
    {
      this.members := members;
    }
  }

  /**
   * `SettingsMigrator.migrate(settings)`: it returns the same dict, and
   * `raised` says that the preset test raised, in which case nothing changed.
   */
  method Migrate(settings: SettingsDict) returns (r: SettingsDict, raised: bool)
    modifies settings
    ensures r == settings
    ensures raised <==> Migrated(old(settings.members)).None?
    ensures !raised ==> settings.members == Migrated(old(settings.members)).value
    ensures raised ==> settings.members == old(settings.members)
  {
    r := settings;
    raised := false;
    if HasKey(settings.members, "formatting") {
      var formatting := Get(settings.members, "formatting");
      var present := PyIn("formatting_preset", formatting);
      if present.None? {
        raised := true;
        return;
      }
      if present.value {
        if !formatting.JObj? {
          raised := true;
          return;
        }
        var preset := Get(formatting.members, "formatting_preset");
        if preset == JStr("Classic") {
          settings.members := Put(settings.members, "formatting", JObj(Put(formatting.members, "formatting_preset", JStr("Classic - Name"))));
        } else if preset == JStr("XML-Like") {
          settings.members := Put(settings.members, "formatting", JObj(Put(formatting.members, "formatting_preset", JStr("XML-Like - Name"))));
        } else if preset == JStr("Divided") {
          settings.members := Put(settings.members, "formatting", JObj(Put(formatting.members, "formatting_preset", JStr("Divided - Name"))));
        }
      }
    }
    assert settings.members == MigratePreset(old(settings.members)).value;
    var system := Get(settings.members, "system_settings");
    if system.JObj? && HasKey(system.members, "enable_console") {
      var flag := Get(system.members, "enable_console");
      settings.members := Put(settings.members, "system_settings", JObj(Remove(system.members, "enable_console")));
      if !HasKey(settings.members, "console_settings") {
        settings.members := Put(settings.members, "console_settings", JObj([]));
      }
      var console := Get(settings.members, "console_settings");
      if console.JObj? && !HasKey(console.members, "enable_console") {
        settings.members := Put(settings.members, "console_settings", JObj(Put(console.members, "enable_console", flag)));
      }
    }
  }

  // Properties

  /** The three old presets get their "- Name" variant; any other value or a missing preset stays. */
  lemma PresetMapped(settings: seq<Member>)
    requires Get(settings, "formatting").JObj?
    ensures var f := Get(settings, "formatting").members;
            && Migrated(settings).Some?
            && var g := Get(Migrated(settings).value, "formatting");
               && g.JObj?
               && Lookup(g.members, "formatting_preset") == (if HasKey(f, "formatting_preset") then Some(NewPreset(Get(f, "formatting_preset"))) else None)
               && forall k :: k != "formatting_preset" ==> Lookup(g.members, k) == Lookup(f, k)
  {
    var f := Get(settings, "formatting").members;
    var s := MigratePreset(settings).value;
    MoveKeepsOthers(s, "formatting");
  }

  /** The second migration touches no key but `system_settings` and `console_settings`. */
  lemma MoveKeepsOthers(settings: seq<Member>, k: string)
    requires k != "system_settings" && k != "console_settings"
    ensures Lookup(MoveConsoleFlag(settings), k) == Lookup(settings, k)
  {
    var system := Get(settings, "system_settings");
    if system.JObj? && HasKey(system.members, "enable_console") {
      var s1 := Put(settings, "system_settings", JObj(Remove(system.members, "enable_console")));
      var s2 := if HasKey(s1, "console_settings") then s1 else Put(s1, "console_settings", JObj([]));
      assert Lookup(s2, k) == Lookup(settings, k);
      var c := Get(s2, "console_settings");
      if c.JObj? && !HasKey(c.members, "enable_console") {
        assert MoveConsoleFlag(settings) == Put(s2, "console_settings", JObj(Put(c.members, "enable_console", Get(system.members, "enable_console"))));
      } else {
        assert MoveConsoleFlag(settings) == s2;
      }
    }
  }

  /** Every key other than the three the migrations name holds the same value afterwards. */
  lemma OtherKeysUnchanged(settings: seq<Member>, k: string)
    requires Migrated(settings).Some?
    requires k != "formatting" && k != "system_settings" && k != "console_settings"
    ensures Lookup(Migrated(settings).value, k) == Lookup(settings, k)
  {
    var s := MigratePreset(settings).value;
    assert Lookup(s, k) == Lookup(settings, k);
    MoveKeepsOthers(s, k);
  }

  /**
   * A dict `system_settings` holding `enable_console` loses exactly that
   * key, and its value lands in `console_settings` unless that already holds
   * one (an existing value wins) or is not a dict.
   */
  lemma ConsoleFlagMoved(settings: seq<Member>)
    requires Get(settings, "system_settings").JObj?
    requires UniqueKeys(Get(settings, "system_settings").members)
    requires HasKey(Get(settings, "system_settings").members, "enable_console")
    ensures var system := Get(settings, "system_settings").members;
            var flag := Get(system, "enable_console");
            var console := Lookup(settings, "console_settings");
            var after := MoveConsoleFlag(settings);
            var newSystem := Get(after, "system_settings");
            var newConsole := Get(after, "console_settings");
            && newSystem.JObj?
            && !HasKey(newSystem.members, "enable_console")
            && (forall k :: k != "enable_console" ==> Lookup(newSystem.members, k) == Lookup(system, k))
            && (console.None? ==> newConsole == JObj([Member("enable_console", flag)]))
            && (console.Some? && console.value.JObj? ==>
                 && newConsole.JObj?
                 && Lookup(newConsole.members, "enable_console")
                       == (if HasKey(console.value.members, "enable_console") then Lookup(console.value.members, "enable_console") else Some(flag))
                 && forall k :: k != "enable_console" ==> Lookup(newConsole.members, k) == Lookup(console.value.members, k))
            && (console.Some? && !console.value.JObj? ==> newConsole == console.value)
  {
    var system := Get(settings, "system_settings").members;
    var flag := Get(system, "enable_console");
    var removed := Remove(system, "enable_console");
    var s1 := Put(settings, "system_settings", JObj(removed));
    assert Lookup(s1, "console_settings") == Lookup(settings, "console_settings");
    var s2 := if HasKey(s1, "console_settings") then s1 else Put(s1, "console_settings", JObj([]));
    assert Get(s2, "system_settings") == JObj(removed);
    var c := Get(s2, "console_settings");
    var after := MoveConsoleFlag(settings);
    if c.JObj? && !HasKey(c.members, "enable_console") {
      assert after == Put(s2, "console_settings", JObj(Put(c.members, "enable_console", flag)));
    } else {
      assert after == s2;
    }
    assert Get(after, "system_settings") == JObj(removed);
  }

  /** Without the flag in a dict `system_settings` the second migration changes nothing. */
  lemma NoFlagNoMove(settings: seq<Member>)
    requires !(Get(settings, "system_settings").JObj? && HasKey(Get(settings, "system_settings").members, "enable_console"))
    ensures MoveConsoleFlag(settings) == settings
  {
  }

  /** Migrating migrated settings changes nothing more. */
  lemma MigrateIdempotent(settings: seq<Member>)
    requires Migrated(settings).Some?
    requires Get(settings, "system_settings").JObj? ==> UniqueKeys(Get(settings, "system_settings").members)
    ensures Migrated(Migrated(settings).value) == Migrated(settings)
  {
    var s := MigratePreset(settings).value;
    var t := MoveConsoleFlag(s);
    PresetSettled(settings);
    assert Lookup(s, "system_settings") == Lookup(settings, "system_settings");
    PresetStable(s, t);
    assert MigratePreset(t) == Some(t);
    ConsoleSettled(s);
  }

  /** After the first migration, running it again changes nothing. */
  lemma PresetSettled(settings: seq<Member>)
    requires MigratePreset(settings).Some?
    ensures MigratePreset(MigratePreset(settings).value) == MigratePreset(settings)
    ensures Lookup(MigratePreset(settings).value, "system_settings") == Lookup(settings, "system_settings")
  {
    var s := MigratePreset(settings).value;
    if HasKey(settings, "formatting") && s != settings {
      RewrittenSettled(settings);
    }
    PresetKeepsSystem(settings);
  }

  /** A rewritten preset is left alone by a second run. */
  lemma RewrittenSettled(settings: seq<Member>)
    requires MigratePreset(settings).Some? && HasKey(settings, "formatting")
    requires MigratePreset(settings).value != settings
    ensures MigratePreset(MigratePreset(settings).value) == MigratePreset(settings)
  {
    var s := MigratePreset(settings).value;
    var f := Get(settings, "formatting");
    var g := JObj(Put(f.members, "formatting_preset", NewPreset(Get(f.members, "formatting_preset"))));
    assert Get(s, "formatting") == g;
    assert PyIn("formatting_preset", g) == Some(true);
    assert Get(g.members, "formatting_preset") !in {JStr("Classic"), JStr("XML-Like"), JStr("Divided")};
  }

  lemma PresetKeepsSystem(settings: seq<Member>)
    requires MigratePreset(settings).Some?
    ensures Lookup(MigratePreset(settings).value, "system_settings") == Lookup(settings, "system_settings")
  {
  }

  /** The second migration does not disturb what the first one reads. */
  lemma PresetStable(s: seq<Member>, t: seq<Member>)
    requires MigratePreset(s) == Some(s) && t == MoveConsoleFlag(s)
    ensures MigratePreset(t) == Some(t)
  {
    MoveKeepsOthers(s, "formatting");
    SameFormattingSettled(s, t);
  }

  /** Whether the preset migration changes anything depends only on `formatting`. */
  lemma SameFormattingSettled(a: seq<Member>, b: seq<Member>)
    requires MigratePreset(a) == Some(a) && Lookup(a, "formatting") == Lookup(b, "formatting")
    ensures MigratePreset(b) == Some(b)
  {
    assert HasKey(a, "formatting") <==> HasKey(b, "formatting");
    assert Get(a, "formatting") == Get(b, "formatting");
  }

  /** After the second migration the flag is gone from `system_settings`. */
  lemma ConsoleSettled(s: seq<Member>)
    requires Get(s, "system_settings").JObj? ==> UniqueKeys(Get(s, "system_settings").members)
    ensures MoveConsoleFlag(MoveConsoleFlag(s)) == MoveConsoleFlag(s)
  {
    FlagGone(s);
  }

  lemma FlagGone(s: seq<Member>)
    requires Get(s, "system_settings").JObj? ==> UniqueKeys(Get(s, "system_settings").members)
    ensures var system := Get(MoveConsoleFlag(s), "system_settings");
            !(system.JObj? && HasKey(system.members, "enable_console"))
  {
    var system := Get(s, "system_settings");
    if system.JObj? && HasKey(system.members, "enable_console") {
      var removed := Remove(system.members, "enable_console");
      var s1 := Put(s, "system_settings", JObj(removed));
      var s2 := if HasKey(s1, "console_settings") then s1 else Put(s1, "console_settings", JObj([]));
      assert Get(s2, "system_settings") == JObj(removed);
      MoveSystemAfter(s);
    }
  }

  /** When the flag moves, `system_settings` ends up as the dict without it. */
  lemma MoveSystemAfter(s: seq<Member>)
    requires Get(s, "system_settings").JObj? && HasKey(Get(s, "system_settings").members, "enable_console")
    ensures Get(MoveConsoleFlag(s), "system_settings") == JObj(Remove(Get(s, "system_settings").members, "enable_console"))
  {
    var system := Get(s, "system_settings").members;
    var removed := Remove(system, "enable_console");
    var s1 := Put(s, "system_settings", JObj(removed));
    var s2 := if HasKey(s1, "console_settings") then s1 else Put(s1, "console_settings", JObj([]));
    assert Get(s2, "system_settings") == JObj(removed);
    var c := Get(s2, "console_settings");
    if c.JObj? && !HasKey(c.members, "enable_console") {
      assert MoveConsoleFlag(s) == Put(s2, "console_settings", JObj(Put(c.members, "enable_console", Get(system, "enable_console"))));
    } else {
      assert MoveConsoleFlag(s) == s2;
    }
  }

  /**
   * When `console_settings` exists but is not a dict, the flag is removed
   * from `system_settings` and stored nowhere.
   */
  lemma FlagDroppedBesideNonDict(settings: seq<Member>)
    requires Get(settings, "system_settings").JObj?
    requires UniqueKeys(Get(settings, "system_settings").members)
    requires HasKey(Get(settings, "system_settings").members, "enable_console")
    requires HasKey(settings, "console_settings") && !Get(settings, "console_settings").JObj?
    ensures !HasKey(Get(MoveConsoleFlag(settings), "system_settings").members, "enable_console")
    ensures Get(MoveConsoleFlag(settings), "console_settings") == Get(settings, "console_settings")
  {
  }
}
