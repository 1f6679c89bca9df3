/**
 * The global keyboard shortcuts of the planner page (class KeyboardShortcuts
 * in app.js): a key event is normalised to a combo string such as
 * "ctrl+s", and the combo is looked up in a fixed table of ten shortcuts.
 */
module Shortcuts {
  import opened Wrappers

  /** The parts of a browser key event the shortcuts look at. */
  datatype KeyEvent = KeyEvent(ctrlKey: bool, altKey: bool, shiftKey: bool, key: string)

  /** The action a shortcut runs. */
  datatype Action =
    | SaveData | ExportData | ImportData | AddNewRow | GoToUsers
    | GoToDashboard | ShowHelp | PrintData | CloseModals

  /** The shortcut table, keyed by combo string. */
  const ShortcutTable: map<string, Action> := map[
    "ctrl+s" := SaveData,
    "ctrl+e" := ExportData,
    "ctrl+i" := ImportData,
    "ctrl+n" := AddNewRow,
    "ctrl+u" := GoToUsers,
    "ctrl+d" := GoToDashboard,
    "ctrl+h" := ShowHelp,
    "f1" := ShowHelp,
    "ctrl+p" := PrintData,
    "esc" := CloseModals
  ]

  /** ASCII lower-casing of one character. */
  function LowerChar(c: char): (d: char)
    ensures !('A' <= d <= 'Z')
    ensures !('A' <= c <= 'Z') ==> d == c
  {
    if 'A' <= c <= 'Z' then (c as int - 'A' as int + 'a' as int) as char else c
  }

  /** ASCII lower-casing of a string. */
  function Lower(s: string): (r: string)
    ensures |r| == |s|
    ensures forall i :: 0 <= i < |r| ==> r[i] == LowerChar(s[i])
  {
    if s == [] then [] else [LowerChar(s[0])] + Lower(s[1..])
  }

  /** The name a key takes in a combo: Escape and F1 are special, other keys are lower-cased. */
  function KeyName(key: string): (name: string)
    ensures key == "Escape" ==> name == "esc"
    ensures key == "F1" ==> name == "f1"
    ensures key != "Escape" && key != "F1" ==> name == Lower(key)
    ensures forall i :: 0 <= i < |name| ==> !('A' <= name[i] <= 'Z')
  {
    if key == "Escape" then "esc" else if key == "F1" then "f1" else Lower(key)
  }

  /** The pressed modifiers, in the order ctrl, alt, shift. */
  function Modifiers(ctrl: bool, alt: bool, shift: bool): seq<string>
  {
    (if ctrl then ["ctrl"] else []) + (if alt then ["alt"] else []) + (if shift then ["shift"] else [])
  }

  /** `parts` joined with `sep` between neighbours. */
  function Join(parts: seq<string>, sep: string): string
  {
    if parts == [] then ""
    else if |parts| == 1 then parts[0]
    else parts[0] + sep + Join(parts[1..], sep)
  }

  /** The combo string of a key event: the modifiers and the key name, joined by "+". */
  function KeyString(e: KeyEvent): string
  {
    Join(Modifiers(e.ctrlKey, e.altKey, e.shiftKey) + [KeyName(e.key)], "+")
  }

  /** Each modifier followed by "+". */
  function PrefixOf(mods: seq<string>): string
  {
    if mods == [] then "" else mods[0] + "+" + PrefixOf(mods[1..])
  }

  /** Joining modifiers and a key name puts each modifier, with its "+", in front of the key. */
  lemma {:induction false} JoinWithLast(mods: seq<string>, last: string)
    ensures Join(mods + [last], "+") == PrefixOf(mods) + last
  {
    if mods != [] {
      assert (mods + [last])[1..] == mods[1..] + [last];
      JoinWithLast(mods[1..], last);
    }
  }

  /** The prefix of a concatenation of modifier lists is the concatenation of their prefixes. */
  lemma {:induction false} PrefixOfAppend(x: seq<string>, y: seq<string>)
    ensures PrefixOf(x + y) == PrefixOf(x) + PrefixOf(y)
  {
    if x != [] {
      assert (x + y)[1..] == x[1..] + y;
      PrefixOfAppend(x[1..], y);
    } else {
      assert x + y == y;
    }
  }

  /** A combo split into its modifiers and key name. */
  datatype Combo = Combo(ctrl: bool, alt: bool, shift: bool, name: string)

  /** The combo an event stands for. */
  function ComboOf(e: KeyEvent): Combo
  {
    Combo(e.ctrlKey, e.altKey, e.shiftKey, KeyName(e.key))
  }

  /** `part` when `flag` is set, otherwise nothing. */
  function Optional(flag: bool, part: string): string
  {
    if flag then part else ""
  }

  /** A combo written out: each pressed modifier with its "+", in the order ctrl, alt, shift, then the key name. */
  function Render(c: Combo): string
  {
    Optional(c.ctrl, "ctrl+") + (Optional(c.alt, "alt+") + (Optional(c.shift, "shift+") + c.name))
  }

  /** Whether `s` begins with `p`. */
  predicate StartsWith(s: string, p: string)
  {
    |p| <= |s| && s[..|p|] == p
  }

  /** Whether a key name begins like a modifier part of a combo. */
  predicate StartsWithModifier(name: string)
  {
    StartsWith(name, "ctrl+") || StartsWith(name, "alt+") || StartsWith(name, "shift+")
  }

  /** Reads an optional leading `p` off `s`: whether it was there, and what follows it. */
  function ReadPart(s: string, p: string): (bool, string)
  {
    if StartsWith(s, p) then (true, s[|p|..]) else (false, s)
  }

  /** Reads a combo string: optional "ctrl+", "alt+", "shift+" in that order, then the key name. */
  function ParseCombo(s: string): Combo
  {
    var (ctrl, s1) := ReadPart(s, "ctrl+");
    var (alt, s2) := ReadPart(s1, "alt+");
    var (shift, name) := ReadPart(s2, "shift+");
    Combo(ctrl, alt, shift, name)
  }

  /** The prefix of a single modifier is that modifier and "+". */
  lemma PrefixOfOne(m: string)
    ensures PrefixOf([m]) == m + "+"
  {
    assert [m][1..] == [];
  }

  /** A modifier that may be pressed, written with its "+". */
  lemma PrefixOfOptional(flag: bool, m: string, written: string)
    requires written == m + "+"
    ensures PrefixOf(if flag then [m] else []) == Optional(flag, written)
  {
    if flag {
      PrefixOfOne(m);
    }
  }

  /** The pressed modifiers, each with its "+", in the order ctrl, alt, shift. */
  lemma ModifierPrefix(ctrl: bool, alt: bool, shift: bool)
    ensures PrefixOf(Modifiers(ctrl, alt, shift)) == Optional(ctrl, "ctrl+") + Optional(alt, "alt+") + Optional(shift, "shift+")
  {
    var c: seq<string> := if ctrl then ["ctrl"] else [];
    var a: seq<string> := if alt then ["alt"] else [];
    var sh: seq<string> := if shift then ["shift"] else [];
    assert Modifiers(ctrl, alt, shift) == c + a + sh;
    PrefixOfAppend(c + a, sh);
    PrefixOfAppend(c, a);
    PrefixOfOptional(ctrl, "ctrl", "ctrl+");
    PrefixOfOptional(alt, "alt", "alt+");
    PrefixOfOptional(shift, "shift", "shift+");
  }

  /** Joining a combo's modifiers and key name with "+" writes the combo out. */
  lemma JoinRendered(k: Combo)
    ensures Join(Modifiers(k.ctrl, k.alt, k.shift) + [k.name], "+") == Render(k)
  {
    var mods := Modifiers(k.ctrl, k.alt, k.shift);
    var c, a, sh := Optional(k.ctrl, "ctrl+"), Optional(k.alt, "alt+"), Optional(k.shift, "shift+");
    JoinWithLast(mods, k.name);
    ModifierPrefix(k.ctrl, k.alt, k.shift);
    assert Join(mods + [k.name], "+") == (c + a + sh) + k.name;
    assert (c + a + sh) + k.name == (c + a) + (sh + k.name);
    assert (c + a) + (sh + k.name) == c + (a + (sh + k.name));
  }

  /** The combo string of an event is its combo written out. */
  lemma KeyStringShape(e: KeyEvent)
    ensures KeyString(e) == Render(ComboOf(e))
  {
    JoinRendered(ComboOf(e));
  }

  /** A string that begins with some other character than `p` does not begin with `p`. */
  lemma FirstCharDiffers(s: string, p: string)
    requires |s| > 0 && |p| > 0 && s[0] != p[0]
    ensures !StartsWith(s, p)
  {
  }

  /** Reading an optional `p` off `Optional(flag, p) + t` recovers `flag` and `t`. */
  lemma ReadOptional(flag: bool, p: string, t: string)
    requires !StartsWith(t, p)
    ensures ReadPart(Optional(flag, p) + t, p) == (flag, t)
  {
    if flag {
      assert (p + t)[..|p|] == p;
      assert (p + t)[|p|..] == t;
    } else {
      assert Optional(flag, p) + t == t;
    }
  }

  /** Reading a written-out combo back gives the combo, when its key name does not begin like a modifier part. */
  lemma ParseRender(c: Combo)
    requires !StartsWithModifier(c.name)
    ensures ParseCombo(Render(c)) == c
  {
    var s2 := Optional(c.shift, "shift+") + c.name;
    var s1 := Optional(c.alt, "alt+") + s2;
    if c.shift {
      FirstCharDiffers(s2, "alt+");
      FirstCharDiffers(s2, "ctrl+");
    } else {
      assert s2 == c.name;
    }
    if c.alt {
      FirstCharDiffers(s1, "ctrl+");
    } else {
      assert s1 == s2;
    }
    ReadOptional(c.ctrl, "ctrl+", s1);
    ReadOptional(c.alt, "alt+", s2);
    ReadOptional(c.shift, "shift+", c.name);
  }

  /**
   * The combo string determines the modifiers and the key name: reading it
   * back gives the event's combo, whenever the key name does not itself
   * begin like a modifier part.
   */
  lemma ParseKeyString(e: KeyEvent)
    requires !StartsWithModifier(KeyName(e.key))
    ensures ParseCombo(KeyString(e)) == ComboOf(e)
  {
    KeyStringShape(e);
    ParseRender(ComboOf(e));
  }

  /** Each letter that works with ctrl has its "ctrl+" combo in the table, bound to that letter's action. */
  lemma CtrlCombos(name: string)
    requires CtrlAction(name).Some?
    ensures "ctrl+" + name in ShortcutTable && ShortcutTable["ctrl+" + name] == CtrlAction(name).value
  {
    if name == "s" { assert "ctrl+" + name == "ctrl+s"; }
    else if name == "e" { assert "ctrl+" + name == "ctrl+e"; }
    else if name == "i" { assert "ctrl+" + name == "ctrl+i"; }
    else if name == "n" { assert "ctrl+" + name == "ctrl+n"; }
    else if name == "u" { assert "ctrl+" + name == "ctrl+u"; }
    else if name == "d" { assert "ctrl+" + name == "ctrl+d"; }
    else if name == "h" { assert "ctrl+" + name == "ctrl+h"; }
    else { assert "ctrl+" + name == "ctrl+p"; }
  }

  /** What the keydown handler does: whether it suppresses the browser default, and which action it runs. */
  datatype Handling = Handling(preventDefault: bool, action: Option<Action>)

  /** Handles a key event: a combo in the table suppresses the default and runs its action. */
  function HandleKeydown(e: KeyEvent): (h: Handling)
    ensures h.preventDefault <==> h.action.Some?
    ensures h.action.Some? <==> KeyString(e) in ShortcutTable
    ensures h.action.Some? ==> h.action.value == ShortcutTable[KeyString(e)]
  {
    var combo := KeyString(e);
    if combo in ShortcutTable then Handling(true, Some(ShortcutTable[combo])) else Handling(false, None)
  }

  /** The letters that work with ctrl, and the action each runs. */
  function CtrlAction(name: string): Option<Action>
  {
    if name == "s" then Some(SaveData)
    else if name == "e" then Some(ExportData)
    else if name == "i" then Some(ImportData)
    else if name == "n" then Some(AddNewRow)
    else if name == "u" then Some(GoToUsers)
    else if name == "d" then Some(GoToDashboard)
    else if name == "h" then Some(ShowHelp)
    else if name == "p" then Some(PrintData)
    else None
  }

  /** The keys that work without a modifier, and the action each runs. */
  function PlainAction(name: string): Option<Action>
  {
    if name == "f1" then Some(ShowHelp)
    else if name == "esc" then Some(CloseModals)
    else None
  }

  /** The action a combo runs, described without the table: none with alt or shift; the ctrl letters; Escape and F1 alone. */
  function ComboAction(c: Combo): Option<Action>
  {
    if c.alt || c.shift then None
    else if c.ctrl then CtrlAction(c.name)
    else PlainAction(c.name)
  }

  /** The combo each key of the table stands for. */
  function TableCombo(k: string): Combo
    requires k in ShortcutTable
  {
    assert k == "ctrl+s" || k == "ctrl+e" || k == "ctrl+i" || k == "ctrl+n" || k == "ctrl+u"
        || k == "ctrl+d" || k == "ctrl+h" || k == "ctrl+p" || k == "f1" || k == "esc";
    if k == "f1" then Combo(false, false, false, "f1")
    else if k == "esc" then Combo(false, false, false, "esc")
    else Combo(true, false, false, k[5..])
  }

  /** A ctrl key of the table, written out, is "ctrl+" and its one-letter name. */
  lemma CtrlKeyRendered(k: string, name: string)
    requires k == "ctrl+" + name && |name| == 1
    ensures k[5..] == name
    ensures Render(Combo(true, false, false, name)) == k
    ensures !StartsWithModifier(name)
  {
    assert k[5..] == name;
  }

  /** Each key of the table is its combo written out. */
  lemma TableKeysRendered(k: string)
    requires k in ShortcutTable
    ensures Render(TableCombo(k)) == k
    ensures !StartsWithModifier(TableCombo(k).name)
  {
    if k == "f1" || k == "esc" {
    } else if k == "ctrl+s" {
      CtrlKeyRendered(k, "s");
    } else if k == "ctrl+e" {
      CtrlKeyRendered(k, "e");
    } else if k == "ctrl+i" {
      CtrlKeyRendered(k, "i");
    } else if k == "ctrl+n" {
      CtrlKeyRendered(k, "n");
    } else if k == "ctrl+u" {
      CtrlKeyRendered(k, "u");
    } else if k == "ctrl+d" {
      CtrlKeyRendered(k, "d");
    } else if k == "ctrl+h" {
      CtrlKeyRendered(k, "h");
    } else {
      assert k == "ctrl+p";
      CtrlKeyRendered(k, "p");
    }
  }

  /** Each key's combo is mapped by `ComboAction` to the table's action for that key. */
  lemma TableActionsAgree(k: string)
    requires k in ShortcutTable
    ensures ComboAction(TableCombo(k)) == Some(ShortcutTable[k])
  {
    assert k == "ctrl+s" || k == "ctrl+e" || k == "ctrl+i" || k == "ctrl+n" || k == "ctrl+u"
        || k == "ctrl+d" || k == "ctrl+h" || k == "ctrl+p" || k == "f1" || k == "esc";
  }

  /** Every combo string in the table is a combo that `ComboAction` gives the same action. */
  lemma TableCombos(k: string)
    requires k in ShortcutTable
    ensures ComboAction(ParseCombo(k)) == Some(ShortcutTable[k])
  {
    TableKeysRendered(k);
    TableActionsAgree(k);
    ParseRender(TableCombo(k));
  }



  /**
   * Which events run which action: none with alt or shift held; with ctrl,
   * the eight letters of the table (either case); without ctrl, Escape and
   * F1. An event is handled exactly when it runs an action.
   */
  lemma HandledEvents(e: KeyEvent)
    requires !StartsWithModifier(KeyName(e.key))
    ensures HandleKeydown(e).action == ComboAction(ComboOf(e))
  {
    var c := ComboOf(e);
    KeyStringShape(e);
    if Render(c) in ShortcutTable {
      ParseRender(c);
      TableCombos(Render(c));
    } else if !c.alt && !c.shift {
      if c.ctrl {
        assert Render(c) == "ctrl+" + c.name;
        if CtrlAction(c.name).Some? {
          CtrlCombos(c.name);
        }
      } else {
        assert Render(c) == c.name;
      }
    }
  }
}
