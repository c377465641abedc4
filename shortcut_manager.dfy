/**
 * The user-recorded global shortcut (`SavedShortcut` and `ShortcutManager`,
 * from Buffer/Managers/ShortcutManager.swift): how a shortcut is displayed,
 * recorded from a key press, and matched against key presses, with the
 * built-in Cmd+Shift+V always accepted.
 *
 * `NSEvent.ModifierFlags` raw values are 64-bit words. Unicode upper-casing
 * is the `upper` parameter; the event monitor and the UserDefaults
 * persistence are not part of this model.
 */
module Shortcuts {
  import opened Wrappers
  import opened Seqs

  /** An `NSEvent.ModifierFlags` raw value (`UInt`). */
  type Flags = bv64

  const ShiftFlag: Flags := 1 << 17
  const ControlFlag: Flags := 1 << 18
  const OptionFlag: Flags := 1 << 19
  const CommandFlag: Flags := 1 << 20

  /** `NSEvent.ModifierFlags.deviceIndependentFlagsMask`: the high 16 bits of the low word. */
  const DeviceIndependentFlagsMask: Flags := 0xFFFF_0000

  /** `kVK_ANSI_V`, the key of the default Cmd+Shift+V. */
  const DefaultKeyCode: int := 9

  /** `kVK_Escape`, which cancels recording. */
  const EscapeKeyCode: int := 53

  /** Key codes from 0xF800 up are function-key characters, not recordable keys. */
  const FirstIgnoredKeyCode: int := 0xF800

  /** `intersection(.deviceIndependentFlagsMask)`: the flags without their device-dependent low bits. */
  function Masked(flags: Flags): Flags {
    flags & DeviceIndependentFlagsMask
  }

  /** `OptionSet.contains`: every bit of `flag` is set in `flags`. */
  predicate Has(flags: Flags, flag: Flags) {
    flags & flag == flag
  }

  /** The parts of a key-down `NSEvent` the manager reads; `keyCode` is a `UInt16`. */
  datatype KeyEvent = KeyEvent(keyCode: int, modifierFlags: Flags, charactersIgnoringModifiers: Option<string>)

  /** `SavedShortcut`. */
  datatype SavedShortcut = SavedShortcut(keyCode: int, modifiers: Flags, characters: Option<string>)

  // ---------------------------------------------------------------- display

  const CommandSymbol: char := '\U{2318}'
  const ShiftSymbol: char := '\U{21E7}'
  const OptionSymbol: char := '\U{2325}'
  const ControlSymbol: char := '\U{2303}'

  /** The four modifier symbols in display order. */
  const AllSymbols: string := [CommandSymbol, ShiftSymbol, OptionSymbol, ControlSymbol]

  /** The flag each symbol stands for. */
  function SymbolFlag(c: char): Flags {
    if c == CommandSymbol then CommandFlag
    else if c == ShiftSymbol then ShiftFlag
    else if c == OptionSymbol then OptionFlag
    else ControlFlag
  }

  function SymbolShown(flags: Flags): char -> bool {
    (c: char) => Has(flags, SymbolFlag(c))
  }

  /** Whether `v` is a Unicode scalar value, i.e. whether `UnicodeScalar(v)` is not nil. */
  predicate IsScalar(v: int) {
    (0 <= v < 0xD800) || (0xE000 <= v < 0x11_0000)
  }

  /** The key part of `displayString`: the upper-cased characters, else the key code as a character, else "?". */
  function KeyLabel(s: SavedShortcut, upper: string -> string): (r: string)
    ensures s.characters.Some? ==> r == upper(s.characters.value)
    ensures s.characters.None? && !IsScalar(s.keyCode) ==> r == "?"
  {
    match s.characters
    case Some(chars) => upper(chars)
    case None => if IsScalar(s.keyCode) then [s.keyCode as char] else "?"
  }

  /** The modifier part of `displayString`: one symbol per set flag, in the order the source tests them. */
  function ModifierSymbols(flags: Flags): (r: string)
    ensures |r| <= 4
    ensures forall i :: 0 <= i < |r| ==> r[i] in AllSymbols && Has(flags, SymbolFlag(r[i]))
  {
    (if Has(flags, CommandFlag) then [CommandSymbol] else [])
    + (if Has(flags, ShiftFlag) then [ShiftSymbol] else [])
    + (if Has(flags, OptionFlag) then [OptionSymbol] else [])
    + (if Has(flags, ControlFlag) then [ControlSymbol] else [])
  }

  /** `SavedShortcut.displayString`, built up as the source does. */
  method DisplayString(s: SavedShortcut, upper: string -> string) returns (result: string)
    ensures result == ModifierSymbols(s.modifiers) + KeyLabel(s, upper)
  {
    result := "";
    if Has(s.modifiers, CommandFlag) { result := result + [CommandSymbol]; }
    if Has(s.modifiers, ShiftFlag) { result := result + [ShiftSymbol]; }
    if Has(s.modifiers, OptionFlag) { result := result + [OptionSymbol]; }
    if Has(s.modifiers, ControlFlag) { result := result + [ControlSymbol]; }
    result := result + KeyLabel(s, upper);
  }

  /** Filtering the four symbols by any test keeps them in order. */
  lemma FilterSymbols(p: char -> bool)
    ensures Filter(AllSymbols, p) ==
      (if p(CommandSymbol) then [CommandSymbol] else []) + (if p(ShiftSymbol) then [ShiftSymbol] else [])
      + (if p(OptionSymbol) then [OptionSymbol] else []) + (if p(ControlSymbol) then [ControlSymbol] else [])
  {
    var t1 := AllSymbols[1..];
    var t2 := t1[1..];
    var t3 := t2[1..];
    assert t3 == [ControlSymbol] && t3[1..] == [];
    assert Filter(t2, p) == (if p(OptionSymbol) then [OptionSymbol] else []) + Filter(t3, p);
    assert Filter(t1, p) == (if p(ShiftSymbol) then [ShiftSymbol] else []) + Filter(t2, p);
  }

  /** The symbol part is the list of all four symbols filtered by their flags. */
  lemma ModifierSymbolsIsFilter(flags: Flags)
    ensures ModifierSymbols(flags) == Filter(AllSymbols, SymbolShown(flags))
  {
    var p := SymbolShown(flags);
    FilterSymbols(p);
    assert p(CommandSymbol) == Has(flags, CommandFlag) && p(ShiftSymbol) == Has(flags, ShiftFlag);
    assert p(OptionSymbol) == Has(flags, OptionFlag) && p(ControlSymbol) == Has(flags, ControlFlag);
  }

  /**
   * Each symbol is shown exactly when its flag is set, and the shown
   * symbols keep the order Command, Shift, Option, Control.
   */
  lemma ModifierSymbolsExact(flags: Flags)
    ensures var r := ModifierSymbols(flags);
      (CommandSymbol in r <==> Has(flags, CommandFlag)) && (ShiftSymbol in r <==> Has(flags, ShiftFlag))
      && (OptionSymbol in r <==> Has(flags, OptionFlag)) && (ControlSymbol in r <==> Has(flags, ControlFlag))
    ensures IsSubsequence(ModifierSymbols(flags), AllSymbols)
  {
    ModifierSymbolsIsFilter(flags);
    FilterMembers(AllSymbols, SymbolShown(flags));
    FilterIsSubsequence(AllSymbols, SymbolShown(flags));
  }

  // ---------------------------------------------------------------- matching

  /** The shortcut `setShortcut` records for a key press: the masked flags and the unmodified characters. */
  function Recorded(e: KeyEvent): (s: SavedShortcut)
    ensures s.keyCode == e.keyCode && s.characters == e.charactersIgnoringModifiers
    ensures Masked(s.modifiers) == s.modifiers
    ensures Masked(s.modifiers) == Masked(e.modifierFlags)
  {
    SavedShortcut(e.keyCode, Masked(e.modifierFlags), e.charactersIgnoringModifiers)
  }

  /** Cmd+Shift+V, other modifiers allowed. */
  predicate IsDefaultShortcut(e: KeyEvent) {
    Has(e.modifierFlags, CommandFlag | ShiftFlag) && e.keyCode == DefaultKeyCode
  }

  /** The saved key with exactly the saved device-independent modifiers. */
  predicate MatchesCustom(s: SavedShortcut, e: KeyEvent) {
    e.keyCode == s.keyCode
    && Masked(e.modifierFlags) == Masked(s.modifiers)
  }

  /** `matches(_:)` on the manager's state. */
  function MatchesEvent(isRecording: bool, shortcut: Option<SavedShortcut>, e: KeyEvent): (r: bool)
    ensures isRecording ==> !r
    ensures !isRecording && IsDefaultShortcut(e) ==> r
    ensures r && shortcut.None? ==> IsDefaultShortcut(e)
  {
    if isRecording then false
    else
      var isDefault := IsDefaultShortcut(e);
      match shortcut
      case Some(s) => MatchesCustom(s, e) || isDefault
      case None => isDefault
  }

  /** Outside recording, the key press a shortcut was recorded from matches it. */
  lemma RecordedShortcutMatches(e: KeyEvent)
    ensures MatchesEvent(false, Some(Recorded(e)), e)
  {
  }

  /** Matching ignores the device-dependent low bits of the modifier flags. */
  lemma MatchesIgnoresDeviceBits(isRecording: bool, shortcut: Option<SavedShortcut>, e: KeyEvent, f: KeyEvent)
    requires e.keyCode == f.keyCode
    requires Masked(e.modifierFlags) == Masked(f.modifierFlags)
    ensures MatchesEvent(isRecording, shortcut, e) == MatchesEvent(isRecording, shortcut, f)
  {
    HasCommandShiftMasked(e.modifierFlags);
    HasCommandShiftMasked(f.modifierFlags);
    assert IsDefaultShortcut(e) == IsDefaultShortcut(f);
    if shortcut.Some? {
      assert MatchesCustom(shortcut.value, e) == MatchesCustom(shortcut.value, f);
    }
  }

  /** Command and Shift are device-independent bits. */
  lemma HasCommandShiftMasked(flags: Flags)
    ensures Has(flags, CommandFlag | ShiftFlag) == Has(Masked(flags), CommandFlag | ShiftFlag)
  {
    assert CommandFlag | ShiftFlag == 0x12_0000;
  }

  /**
   * Outside recording, a custom shortcut adds exactly its own key presses
   * to those of the default Cmd+Shift+V.
   */
  lemma MatchesWithCustom(s: SavedShortcut, e: KeyEvent)
    ensures MatchesEvent(false, Some(s), e) <==> MatchesEvent(false, None, e) || MatchesCustom(s, e)
  {
  }

  // ---------------------------------------------------------------- the manager

  /** `ShortcutManager`: the saved shortcut and whether a key press is being recorded. */
  class ShortcutManager {
    var shortcut: Option<SavedShortcut>
    var isRecording: bool

    /** `init`: not recording; `saved` is what `loadShortcut` found, if anything. */
    constructor(saved: Option<SavedShortcut>)
      ensures shortcut == saved && !isRecording
    {
      shortcut := saved;
      isRecording := false;
    }

    /** `startRecording`; a second call while recording changes nothing. */
    method StartRecording()
      modifies this`isRecording
      ensures isRecording
    {
      if isRecording {
        return;
      }
      isRecording := true;
    }

    /** `stopRecording`. */
    method StopRecording()
      modifies this`isRecording
      ensures !isRecording
    {
      isRecording := false;
    }

    /** `setShortcut(event:)`: key codes from 0xF800 up are ignored. */
    method SetShortcut(e: KeyEvent)
      modifies this`shortcut
      ensures e.keyCode >= FirstIgnoredKeyCode ==> shortcut == old(shortcut)
      ensures e.keyCode < FirstIgnoredKeyCode ==> shortcut == Some(Recorded(e))
    {
      if e.keyCode >= FirstIgnoredKeyCode {
        return;
      }
      var modifiers := Masked(e.modifierFlags);
      shortcut := Some(SavedShortcut(e.keyCode, modifiers, e.charactersIgnoringModifiers));
    }

    /** The recording monitor's handler for a key press: Escape cancels, any other key is recorded; recording ends either way. */
    method OnRecordingKeyDown(e: KeyEvent)
      modifies this
      ensures !isRecording
      ensures e.keyCode == EscapeKeyCode || e.keyCode >= FirstIgnoredKeyCode ==> shortcut == old(shortcut)
      ensures e.keyCode != EscapeKeyCode && e.keyCode < FirstIgnoredKeyCode ==> shortcut == Some(Recorded(e))
    {
      if e.keyCode == EscapeKeyCode {
        StopRecording();
        return;
      }
      SetShortcut(e);
      StopRecording();
    }

    /** `matches(_:)`. */
    function Matches(e: KeyEvent): (r: bool)
      reads this
      ensures r == MatchesEvent(isRecording, shortcut, e)
    {
      MatchesEvent(isRecording, shortcut, e)
    }
  }
}
