/**
 * The prompt formatter of the DeepSeek driver: it turns the chat messages of
 * a request into the single text typed into the chat page. With formatting
 * off, messages become `role: content` lines; with formatting on, each
 * message fills a template, the parts are joined by a divider, and an
 * optional injection text is added before or after.
 *
 * The formatting settings are a parameter. The two name-extraction regular
 * expressions over system messages are parameters too: each returns the two
 * captured groups of its first match, or nothing.
 */
module PromptFormat {
  import opened Wrappers
  import opened Strings

  /** A request message: its role, its content and its optional author name. */
  datatype Message = Message(role: string, content: string, name: Option<string>)

  /** What is formatted: a single text, or a list of messages. */
  datatype Input = Single(text: string) | Messages(msgs: seq<Message>)

  datatype Names = Names(user: string, character: string)

  /**
   * The `formatting` settings. The four switches are the truthiness of their
   * settings. The template and the divider are `None` when the setting is
   * missing, null or not a string: calling `replace` on such a value raises
   * `AttributeError`. A missing or null injection setting reads as the empty
   * string, which the injection test and the position test treat alike.
   */
  datatype FormatSettings = FormatSettings(
    apply: bool,
    msgObjects: bool,
    ir2: bool,
    classic: bool,
    template: Option<string>,
    divider: Option<string>,
    injectionPosition: string,
    injectionContent: string)

  const AttributeError := "AttributeError"

  /** A regular-expression search returning the two groups of its first match. */
  type Matcher = string -> Option<(string, string)>

  const DefaultNames := Names("User", "Character")

  // Names

  /** A message's truthy `name`, if it has one. */
  function GivenName(m: Message): Option<string> {
    if m.name.Some? && m.name.value != "" then m.name else None
  }

  /** The message-object scan: a named user or assistant message sets that name. */
  function ObjectName(n: Names, m: Message): Names {
    match GivenName(m)
    case None => n
    case Some(nm) =>
      if m.role == "user" then n.(user := nm)
      else if m.role == "assistant" then n.(character := nm)
      else n
  }

  function ScanObjects(n: Names, msgs: seq<Message>): Names
    decreases |msgs|
  {
    if |msgs| == 0 then n else ScanObjects(ObjectName(n, msgs[0]), msgs[1..])
  }

  /** A system message: an IR2 match sets (user, char), then a classic match sets (char, user). */
  function SystemName(n: Names, m: Message, useIr2: bool, useClassic: bool, ir2: Matcher, classic: Matcher): Names {
    if m.role != "system" then n
    else
      var n1 := if useIr2 && ir2(m.content).Some? then Names(ir2(m.content).value.0, ir2(m.content).value.1) else n;
      if useClassic && classic(m.content).Some? then Names(classic(m.content).value.1, classic(m.content).value.0) else n1
  }

  function ScanSystem(n: Names, msgs: seq<Message>, useIr2: bool, useClassic: bool, ir2: Matcher, classic: Matcher): Names
    decreases |msgs|
  {
    if |msgs| == 0 then n
    else ScanSystem(SystemName(n, msgs[0], useIr2, useClassic, ir2, classic), msgs[1..], useIr2, useClassic, ir2, classic)
  }

  /** The user and character names: defaults, then the object scan, then the system-message scan. */
  function ResolveNames(cfg: FormatSettings, input: Input, ir2: Matcher, classic: Matcher): (r: Names)
    ensures input.Single? ==> r == DefaultNames
    ensures !cfg.msgObjects && !cfg.ir2 && !cfg.classic ==> r == DefaultNames
  {
    var scanned := if input.Messages? then input.msgs else [];
    var n1 := if cfg.msgObjects then ScanObjects(DefaultNames, scanned) else DefaultNames;
    if cfg.ir2 || cfg.classic then ScanSystem(n1, scanned, cfg.ir2, cfg.classic, ir2, classic) else n1
  }

  // Parts

  const NameSlot := "{{name}}"
  const RoleSlot := "{{role}}"
  const ContentSlot := "{{content}}"

  /**
   * The template with `{{name}}`, then `{{role}}`, then `{{content}}`
   * replaced. Text without a brace is left alone, and the content slot
   * alone becomes the content, whatever it holds.
   */
  function Fill(template: string, name: string, role: string, content: string): (r: string)
    ensures '{' !in template ==> r == template
    ensures template == ContentSlot ==> r == content
  {
    FillFacts(template, name, role, content);
    Replace(Replace(Replace(template, NameSlot, name), RoleSlot, role), ContentSlot, content)
  }

  lemma FillFacts(template: string, name: string, role: string, content: string)
    ensures var r := Replace(Replace(Replace(template, NameSlot, name), RoleSlot, role), ContentSlot, content);
            && ('{' !in template ==> r == template)
            && (template == ContentSlot ==> r == content)
  {
    if '{' !in template {
      ReplaceMissingHead(template, NameSlot, name);
      ReplaceMissingHead(template, RoleSlot, role);
      ReplaceMissingHead(template, ContentSlot, content);
    }
    if template == ContentSlot {
      assert "" + ContentSlot + "" == ContentSlot && ContentSlot + "" == ContentSlot;
      SlotSurvives("", ContentSlot, "", NameSlot, name);
      SlotSurvives("", ContentSlot, "", RoleSlot, role);
      ReplaceAtFront(ContentSlot, "", content);
    }
  }

  /**
   * A later slot survives the pass for an earlier one: the pass for
   * `{{name}}` or `{{role}}` keeps a `{{role}}` or `{{content}}` slot that
   * is followed by text without a brace.
   */
  lemma SlotSurvives(before: string, slot: string, rest: string, pat: string, x: string)
    requires (pat == NameSlot && (slot == RoleSlot || slot == ContentSlot)) || (pat == RoleSlot && slot == ContentSlot)
    requires '{' !in before && '{' !in rest
    ensures Replace(before + slot + rest, pat, x) == before + slot + rest
  {
    var t := slot + rest;
    forall i | 0 <= i < |slot|
      ensures !OccursAt(t, pat, i)
    {
      // at 0 and 1 the third character of `t` differs; later ones do not start with a brace
      if i + |pat| <= |t| {
        assert t[i..i + |pat|][0] == t[i] == slot[i];
        assert t[i..i + |pat|][1] == t[i + 1];
        assert t[i..i + |pat|][2] == t[i + 2];
      }
    }
    ReplaceKeepsPrefix(slot, rest, pat, x);
    ReplaceMissingHead(rest, pat, x);
    assert before + slot + rest == before + t;
    assert forall i :: 0 <= i < |before| ==> !OccursAt(before + t, pat, i);
    ReplaceKeepsPrefix(before, t, pat, x);
  }

  /** The pass for a slot opening with a brace, between brace-free text, replaces exactly that slot. */
  lemma SlotPass(before: string, slot: string, after: string, x: string)
    requires |slot| > 0 && slot[0] == '{'
    requires '{' !in before && '{' !in after
    ensures Replace(before + slot + after, slot, x) == before + x + after
  {
    var t := before + (slot + after);
    assert before + slot + after == t;
    forall i | 0 <= i < |before|
      ensures !OccursAt(t, slot, i)
    {
      if i + |slot| <= |t| {
        assert t[i..i + |slot|][0] == t[i] == before[i];
      }
    }
    ReplaceKeepsPrefix(before, slot + after, slot, x);
    ReplaceAtFront(slot, after, x);
    ReplaceMissingHead(after, slot, x);
  }

  function DisplayRole(role: string): string {
    if role == "user" then "User" else if role == "assistant" then "Character" else "System"
  }

  /** The name shown for a message: its own name when enabled, else the resolved one. */
  function DisplayName(m: Message, names: Names, msgObjects: bool): string {
    var own := if msgObjects then GivenName(m) else None;
    if m.role == "user" then own.GetOr(names.user)
    else if m.role == "assistant" then own.GetOr(names.character)
    else "System"
  }

  function Part(template: string, msgObjects: bool, names: Names, m: Message): string {
    Fill(template, DisplayName(m, names, msgObjects), DisplayRole(m.role), m.content)
  }

  function Parts(template: string, msgObjects: bool, names: Names, input: Input): seq<string> {
    match input
    case Single(text) => [Fill(template, names.user, "User", text)]
    case Messages(msgs) => seq(|msgs|, i requires 0 <= i < |msgs| => Part(template, msgObjects, names, msgs[i]))
  }

  /** The divider with each literal backslash-n turned into a newline. */
  function Divider(divider: string): string {
    Replace(divider, "\\n", "\n")
  }

  function Inject(body: string, position: string, injection: string): string {
    if injection == "" then body
    else if position == "Before" then injection + "\n" + body
    else body + "\n" + injection
  }

  function PlainLine(m: Message): string {
    m.role + ": " + m.content
  }

  /** Whether the input has a part to fill, so that the template is used. */
  predicate HasParts(input: Input) {
    input.Single? || |input.msgs| > 0
  }

  /**
   * The whole formatter. With formatting on, a divider that is not a string
   * raises as it is unescaped, and a template that is not a string raises as
   * soon as a part is filled; an empty message list fills no part.
   */
  function FormatMessages(cfg: FormatSettings, input: Input, ir2: Matcher, classic: Matcher): (r: Result<string, string>)
    ensures r.Failure? <==> cfg.apply && (cfg.divider.None? || (cfg.template.None? && HasParts(input)))
    ensures r.Failure? ==> r.error == AttributeError
    ensures !cfg.apply && input.Single? ==> r == Success(input.text)
  {
    if !cfg.apply then
      match input
      case Single(text) => Success(text)
      case Messages(msgs) => Success(Join(seq(|msgs|, i requires 0 <= i < |msgs| => PlainLine(msgs[i])), "\n"))
    else if cfg.divider.None? then Failure(AttributeError)
    else if cfg.template.None? && HasParts(input) then Failure(AttributeError)
    else
      var names := ResolveNames(cfg, input, ir2, classic);
      var parts := Parts(cfg.template.GetOr(""), cfg.msgObjects, names, input);
      Success(Inject(Join(parts, Divider(cfg.divider.value)), cfg.injectionPosition, cfg.injectionContent))
  }

  // Properties

  /** With formatting off a single text is sent unchanged. */
  lemma UnformattedText(cfg: FormatSettings, text: string, ir2: Matcher, classic: Matcher)
    requires !cfg.apply
    ensures FormatMessages(cfg, Single(text), ir2, classic) == Success(text)
  {
  }

  /**
   * With formatting off the messages become one `role: content` line each:
   * splitting the result on newlines gives those lines back, in order, when
   * no role or content holds a newline.
   */
  lemma UnformattedLines(cfg: FormatSettings, msgs: seq<Message>, ir2: Matcher, classic: Matcher)
    requires !cfg.apply && |msgs| > 0
    requires forall i :: 0 <= i < |msgs| ==> '\n' !in msgs[i].role && '\n' !in msgs[i].content
    ensures FormatMessages(cfg, Messages(msgs), ir2, classic).Success?
    ensures Split(FormatMessages(cfg, Messages(msgs), ir2, classic).value, '\n')
         == seq(|msgs|, i requires 0 <= i < |msgs| => msgs[i].role + ": " + msgs[i].content)
  {
    var lines := seq(|msgs|, i requires 0 <= i < |msgs| => PlainLine(msgs[i]));
    forall k | 0 <= k < |lines|
      ensures '\n' !in lines[k]
    {
      assert lines[k] == msgs[k].role + ": " + msgs[k].content;
    }
    SplitJoin(lines, '\n');
  }

  /** A template without placeholders is sent as it is for every message. */
  lemma FillWithoutPlaceholders(template: string, name: string, role: string, content: string)
    requires !Contains(template, "{{name}}") && !Contains(template, "{{role}}") && !Contains(template, "{{content}}")
    ensures Fill(template, name, role, content) == template
  {
    ReplaceAbsent(template, "{{name}}", name);
    ReplaceAbsent(template, "{{role}}", role);
    ReplaceAbsent(template, "{{content}}", content);
  }

  /**
   * The content slot of a template `before{{content}}after` whose fixed text
   * holds no brace becomes the message content, whatever the name, the role
   * and the content hold.
   */
  lemma FillContentSlot(before: string, after: string, name: string, role: string, content: string)
    requires '{' !in before && '{' !in after
    ensures Fill(before + ContentSlot + after, name, role, content) == before + content + after
  {
    SlotSurvives(before, ContentSlot, after, NameSlot, name);
    SlotSurvives(before, ContentSlot, after, RoleSlot, role);
    SlotPass(before, ContentSlot, after, content);
  }

  /**
   * The name slot of a template `before{{name}}after` whose fixed text and
   * name hold no brace becomes the name.
   */
  lemma FillNameSlot(before: string, after: string, name: string, role: string, content: string)
    requires '{' !in before && '{' !in after && '{' !in name
    ensures Fill(before + NameSlot + after, name, role, content) == before + name + after
  {
    SlotPass(before, NameSlot, after, name);
    var t := before + name + after;
    assert '{' !in t by {
      forall k | 0 <= k < |t| ensures t[k] != '{' {
        if k < |before| { assert t[k] == before[k]; }
        else if k < |before| + |name| { assert t[k] == name[k - |before|]; }
        else { assert t[k] == after[k - |before| - |name|]; }
      }
    }
    ReplaceMissingHead(t, RoleSlot, role);
    ReplaceMissingHead(t, ContentSlot, content);
  }

  /**
   * The slots are filled in the order name, role, content: a name that
   * holds `{{content}}` has the content put in its place, while content
   * that holds `{{name}}` is not scanned again.
   */
  lemma FillOrder(name: string, role: string, content: string)
    ensures Fill(NameSlot, ContentSlot, role, content) == content
    ensures Fill(ContentSlot, name, role, NameSlot) == NameSlot
  {
    ReplaceAtFront(NameSlot, "", ContentSlot);
    assert NameSlot + "" == NameSlot && ContentSlot + "" == ContentSlot;
    assert "" + ContentSlot + "" == ContentSlot;
    SlotSurvives("", ContentSlot, "", RoleSlot, role);
    SlotSurvives("", ContentSlot, "", NameSlot, name);
    ReplaceAtFront(ContentSlot, "", content);
  }

  /** A divider without a backslash-n is used as it is. */
  lemma DividerUnchanged(divider: string)
    requires !Contains(divider, "\\n")
    ensures Divider(divider) == divider
  {
    ReplaceAbsent(divider, "\\n", "\n");
  }

  /**
   * With formatting on, a divider or a template that is not a string raises
   * `AttributeError`, whatever the messages; the template only once a part
   * is filled.
   */
  lemma MissingSettingRaises(cfg: FormatSettings, input: Input, ir2: Matcher, classic: Matcher)
    requires cfg.apply
    ensures cfg.divider.None? ==> FormatMessages(cfg, input, ir2, classic) == Failure(AttributeError)
    ensures cfg.template.None? && HasParts(input) ==> FormatMessages(cfg, input, ir2, classic) == Failure(AttributeError)
    ensures cfg.divider.Some? && cfg.injectionContent == "" ==> FormatMessages(cfg, Messages([]), ir2, classic) == Success("")
  {
  }

  /**
   * A single text with formatting on is one User message under the default
   * user name: no message list is scanned for names. A divider or template
   * that is not a string raises.
   */
  lemma FormattedSingle(cfg: FormatSettings, text: string, ir2: Matcher, classic: Matcher)
    requires cfg.apply && cfg.injectionContent == ""
    ensures FormatMessages(cfg, Single(text), ir2, classic)
         == if cfg.divider.None? || cfg.template.None? then Failure(AttributeError)
            else Success(Fill(cfg.template.value, "User", "User", text))
  {
  }

  /**
   * With formatting on and no injection, the text is the parts joined by the
   * divider, one part per message, each the template filled with that
   * message's name, display role and content; a divider that is not a
   * string, or a template that is not one while there are messages, raises.
   */
  lemma FormattedMessages(cfg: FormatSettings, msgs: seq<Message>, ir2: Matcher, classic: Matcher)
    requires cfg.apply && cfg.injectionContent == ""
    ensures var r := FormatMessages(cfg, Messages(msgs), ir2, classic);
            && (r.Failure? <==> cfg.divider.None? || (cfg.template.None? && |msgs| > 0))
            && (r.Success? ==>
                  var names := ResolveNames(cfg, Messages(msgs), ir2, classic);
                  var parts := Parts(cfg.template.GetOr(""), cfg.msgObjects, names, Messages(msgs));
                  && |parts| == |msgs|
                  && r.value == Join(parts, Divider(cfg.divider.value))
                  && forall i :: 0 <= i < |msgs| ==>
                       parts[i] == Fill(cfg.template.value, DisplayName(msgs[i], names, cfg.msgObjects),
                                        DisplayRole(msgs[i].role), msgs[i].content))
  {
  }

  /**
   * End to end, with the template `before{{content}}after` and a divider
   * without a backslash-n: the text is each message's content between the
   * fixed text, joined by the divider, whatever the names.
   */
  lemma ContentTemplateMessages(cfg: FormatSettings, msgs: seq<Message>, ir2: Matcher, classic: Matcher,
                                before: string, after: string)
    requires cfg.apply && cfg.injectionContent == ""
    requires cfg.template == Some(before + ContentSlot + after) && '{' !in before && '{' !in after
    requires cfg.divider.Some? && !Contains(cfg.divider.value, "\\n")
    ensures FormatMessages(cfg, Messages(msgs), ir2, classic)
         == Success(Join(seq(|msgs|, i requires 0 <= i < |msgs| => before + msgs[i].content + after), cfg.divider.value))
  {
    var names := ResolveNames(cfg, Messages(msgs), ir2, classic);
    var parts := Parts(cfg.template.value, cfg.msgObjects, names, Messages(msgs));
    var want := seq(|msgs|, i requires 0 <= i < |msgs| => before + msgs[i].content + after);
    forall i | 0 <= i < |msgs|
      ensures parts[i] == want[i]
    {
      FillContentSlot(before, after, DisplayName(msgs[i], names, cfg.msgObjects), DisplayRole(msgs[i].role), msgs[i].content);
    }
    assert parts == want;
    DividerUnchanged(cfg.divider.value);
  }

  /** A non-empty injection goes before the text ("Before") or after it, on its own line. */
  lemma Injection(body: string, position: string, injection: string)
    requires injection != ""
    ensures var r := Inject(body, position, injection);
            if position == "Before" then r[..|injection| + 1] == injection + "\n" && r[|injection| + 1..] == body
            else r[..|body|] == body && r[|body|..] == "\n" + injection
  {
  }

  lemma {:induction false} ScanSystemSnoc(n: Names, msgs: seq<Message>, m: Message, useIr2: bool, useClassic: bool, ir2: Matcher, classic: Matcher)
    ensures ScanSystem(n, msgs + [m], useIr2, useClassic, ir2, classic)
         == SystemName(ScanSystem(n, msgs, useIr2, useClassic, ir2, classic), m, useIr2, useClassic, ir2, classic)
    decreases |msgs|
  {
    if |msgs| == 0 {
      assert (msgs + [m])[1..] == [];
    } else {
      assert (msgs + [m])[0] == msgs[0] && (msgs + [m])[1..] == msgs[1..] + [m];
      ScanSystemSnoc(SystemName(n, msgs[0], useIr2, useClassic, ir2, classic), msgs[1..], m, useIr2, useClassic, ir2, classic);
    }
  }

  /**
   * The last system message decides: when its content matches the classic
   * pattern, the character name is the first group and the user name the
   * second, whatever came before.
   */
  lemma LastClassicMatchWins(cfg: FormatSettings, msgs: seq<Message>, m: Message, ir2: Matcher, classic: Matcher)
    requires cfg.classic && m.role == "system" && classic(m.content).Some?
    ensures ResolveNames(cfg, Messages(msgs + [m]), ir2, classic)
         == Names(classic(m.content).value.1, classic(m.content).value.0)
  {
    var n1 := if cfg.msgObjects then ScanObjects(DefaultNames, msgs + [m]) else DefaultNames;
    ScanSystemSnoc(n1, msgs, m, cfg.ir2, cfg.classic, ir2, classic);
  }

  /** Without any scan enabled the names are the defaults "User" and "Character". */
  lemma DefaultNamesKept(cfg: FormatSettings, input: Input, ir2: Matcher, classic: Matcher)
    requires !cfg.msgObjects && !cfg.ir2 && !cfg.classic
    ensures ResolveNames(cfg, input, ir2, classic) == Names("User", "Character")
  {
  }
}
